/** How the layout grows while a pattern is compiled: appending, linking, hooking, inserting. */
module RegexBuild {
  import opened Bits
  import opened RegexSyntax
  import opened RegexCode

  // ----- Keeping what is there -----

  lemma KeepNode(from: seq<byte>, to: seq<byte>, p: nat, op: byte, k: int)
    requires Node(from, p, op, k) && InCode(to, p)
    requires from[p] == to[p] && from[p + 1] == to[p + 1] && from[p + 2] == to[p + 2]
    ensures Node(to, p, op, k)
  {
  }

  ghost predicate Same(from: seq<byte>, to: seq<byte>, lo: nat, hi: nat) {
    hi <= |from| && hi <= |to| && forall i :: lo <= i < hi ==> from[i] == to[i]
  }

  lemma KeepPiece(from: seq<byte>, to: seq<byte>, p: nat, x: Piece, k: int)
    requires Laid(from, p, x, k) == true && p > 0 && k >= 0 && Same(from, to, p, p + Size(x))
    ensures Laid(to, p, x, k) == true
  {
    hide Laid;
    MovedAll(from, to, p, p + Size(x), 0);
    MovePiece(from, to, p, p + Size(x), 0, p, x, k);
  }

  lemma KeepBranch(from: seq<byte>, to: seq<byte>, p: nat, b: Branch, k: int)
    requires LaidBranch(from, p, b, k) == true && p > 0 && k >= 0 && Same(from, to, p, p + BranchSize(b))
    ensures LaidBranch(to, p, b, k) == true
  {
    hide LaidBranch;
    MovedAll(from, to, p, p + BranchSize(b), 0);
    MoveBranch(from, to, p, p + BranchSize(b), 0, p, b, k);
  }

  lemma KeepAlts(from: seq<byte>, to: seq<byte>, p: nat, a: Alts, last: int, hooked: nat, e: int)
    requires LaidAlts(from, p, a, last, hooked, e) == true && p > 0 && last >= 0 && e > 0 && Same(from, to, p, p + AltsSize(a))
    ensures LaidAlts(to, p, a, last, hooked, e) == true
  {
    hide LaidAlts;
    MovedAll(from, to, p, p + AltsSize(a), 0);
    MoveAlts(from, to, p, p + AltsSize(a), 0, p, a, last, hooked, e);
  }

  /** What `regtail` does to the last node on the way from `p`. */
  lemma LinkNode(code: seq<byte>, t: nat, op: byte, k: nat)
    requires Node(code, t, op, NULL) && op != BACK && t < k < t + 65536
    ensures Node(Linked(code, t, k - t), t, op, k)
  {
  }

  lemma LinkBack(code: seq<byte>, t: nat, k: nat)
    requires Node(code, t, BACK, NULL) && 0 < k < t < k + 65536
    ensures Node(Linked(code, t, t - k), t, BACK, k)
  {
  }

  lemma LinkRelinks(code: seq<byte>, lo: nat, hi: nat, t: nat, k: nat)
    requires lo <= t && t + 3 <= hi <= |code| && code[t] != BACK && t < k < t + 65536
    ensures Relinked(code, Linked(code, t, k - t), lo, hi, t, k)
  {
    var to := Linked(code, t, k - t);
    MovedAll(code, to, lo, t + 1, 0);
    MovedAll(code, to, t + 3, hi, 0);
  }

  lemma LinkPiece(code: seq<byte>, p: nat, x: Piece, k: nat)
    requires Laid(code, p, x, NULL) == true && p > 0 && p + Size(x) <= |code| && p + Size(x) <= k < p + 65536
    ensures Leads(code, p, Tail(p, x), NULL)
    ensures Laid(Linked(code, Tail(p, x), k - Tail(p, x)), p, x, k) == true
  {
    hide Laid;
    LeadsPiece(code, p, x, NULL);
    LinkRelinks(code, p, p + Size(x), Tail(p, x), k);
    RelinkPiece(code, Linked(code, Tail(p, x), k - Tail(p, x)), p, x, NULL, k);
  }

  lemma LinkBranch(code: seq<byte>, p: nat, b: Branch, k: nat)
    requires LaidBranch(code, p, b, NULL) == true && p > 0 && p + BranchSize(b) <= |code| && p + BranchSize(b) <= k < p + 65536
    ensures var t := BranchTail(p, b); Leads(code, p, t, NULL) && Leads(code, LastAt(p, b), t, NULL)
    ensures LaidBranch(Linked(code, BranchTail(p, b), k - BranchTail(p, b)), p, b, k) == true
  {
    hide LaidBranch, BranchTail, LastAt, Relinked;
    var t := BranchTail(p, b);
    LeadsBranch(code, p, b, NULL);
    LinkRelinks(code, p, p + BranchSize(b), t, k);
    RelinkBranch(code, Linked(code, t, k - t), p, b, NULL, k);
  }

  // ----- Branches -----

  function Join(b: Branch, rest: Branch): Branch
    decreases b
  {
    if b.Then? then Then(b.first, Join(b.rest, rest)) else rest
  }

  /** The pieces already read, and what is read from there on. */
  function Behind(b: Branch, r: Parsed<Branch>): Parsed<Branch> {
    match r
    case Bad(m) => Bad(m)
    case Parsed(rest, q, n) => Parsed(Join(b, rest), q, n)
  }

  function BehindAlts(a: Alts, r: Parsed<Alts>): Parsed<Alts> {
    match r
    case Bad(m) => Bad(m)
    case Parsed(rest, q, n) => Parsed(JoinAlts(a, rest), q, n)
  }

  lemma {:induction false} JoinEmpty(b: Branch)
    ensures Join(b, Empty) == b
    decreases b
  {
    if b.Then? { JoinEmpty(b.rest); }
  }

  lemma {:induction false} JoinTwice(b: Branch, c: Branch, d: Branch)
    ensures Join(Join(b, c), d) == Join(b, Join(c, d))
    decreases b
  {
    if b.Then? { JoinTwice(b.rest, c, d); }
  }

  lemma {:induction false} JoinSize(b: Branch, rest: Branch)
    requires b.Then? && rest.Then?
    ensures BranchSize(Join(b, rest)) == BranchSize(b) + BranchSize(rest)
    decreases b
  {
    if b.rest.Then? { JoinSize(b.rest, rest); }
  }

  /** A piece right behind a branch that leads to it lengthens the branch. */
  lemma {:induction false} JoinLaid(code: seq<byte>, p: nat, b: Branch, x: Piece, k: int)
    requires b.Then? && LaidBranch(code, p, b, p + BranchSize(b)) == true && Laid(code, p + BranchSize(b), x, k) == true
    ensures LaidBranch(code, p, Join(b, Then(x, Empty)), k) == true
    ensures LastAt(p, Join(b, Then(x, Empty))) == p + BranchSize(b)
    decreases b
  {
    hide Laid;
    if b.rest.Then? {
      JoinLaid(code, p + Size(b.first), b.rest, x, k);
    }
  }

  /** One more piece is read. */
  lemma BehindNext(b: Branch, x: Piece, e: seq<byte>, p: nat, npar: nat, q: nat, n: nat)
    requires NulFree(e) && p <= |e| && npar > 0 && !EndsBranch(At(e, p))
    requires ParsePiece(e, p, npar) == Parsed(x, q, n)
    ensures Behind(b, ParseBranch(e, p, npar)) == Behind(Join(b, Then(x, Empty)), ParseBranch(e, q, n))
    ensures ParseBranch(e, p, npar).Parsed? ==>
      && ParseBranch(e, q, n).Parsed?
      && (b.Then? ==> BranchSize(Join(b, ParseBranch(e, p, npar).it)) >= BranchSize(b) + Size(x))
      && BranchSize(ParseBranch(e, p, npar).it) >= Size(x)
  {
    var r := ParseBranch(e, q, n);
    if r.Parsed? {
      JoinTwice(b, Then(x, Empty), r.it);
      if b.Then? { JoinSize(b, Then(x, r.it)); }
    }
  }

  lemma BehindBad(b: Branch, m: Error)
    ensures Behind(b, Bad(m)) == Bad(m)
  {
  }

  /** A branch that has not ended cannot be read if its next piece cannot. */
  lemma BranchNeedsPiece(e: seq<byte>, p: nat, npar: nat)
    requires NulFree(e) && p <= |e| && npar > 0 && !EndsBranch(At(e, p))
    ensures var r := ParsePiece(e, p, npar); r.Bad? ==> ParseBranch(e, p, npar) == Bad(r.error)
  {
  }

  lemma {:induction false} JoinWidth(b: Branch, x: Piece)
    ensures BranchHasWidth(Join(b, Then(x, Empty))) == (BranchHasWidth(b) || HasWidth(x))
    ensures BranchSpStart(Join(b, Then(x, Empty))) == if b.Then? then BranchSpStart(b) else SpStart(x)
    decreases b
  {
    if b.Then? { JoinWidth(b.rest, x); }
  }

  // ----- Alternatives -----

  function JoinAlts(a: Alts, rest: Alts): Alts
    decreases a
  {
    if a.Or? then Or(a.b, JoinAlts(a.others, rest)) else Or(a.b, rest)
  }

  lemma {:induction false} JoinAltsTwice(a: Alts, b: Branch, rest: Alts)
    ensures JoinAlts(JoinAlts(a, One(b)), rest) == JoinAlts(a, Or(b, rest))
    decreases a
  {
    if a.Or? { JoinAltsTwice(a.others, b, rest); }
  }

  lemma {:induction false} JoinAltsSize(a: Alts, rest: Alts)
    ensures AltsSize(JoinAlts(a, rest)) == AltsSize(a) + AltsSize(rest)
    ensures Count(JoinAlts(a, rest)) == Count(a) + Count(rest)
    decreases a
  {
    if a.Or? { JoinAltsSize(a.others, rest); }
  }

  /** Linking the last choice node to one more alternative right behind. */
  lemma {:induction false} JoinAltsLaid(code: seq<byte>, p: nat, a: Alts, b: Branch, e: int)
    requires var q := p + AltsSize(a);
      LaidAlts(code, p, a, q, 0, e) == true && LaidAlts(code, q, One(b), NULL, 0, e) == true
    ensures LaidAlts(code, p, JoinAlts(a, One(b)), NULL, 0, e) == true
    decreases a
  {
    hide Node, LaidBranch;
    if a.Or? {
      JoinAltsLaid(code, p + 3 + BranchSize(a.b), a.others, b, e);
    }
  }

  /** The first choice and the others, taken apart and put together. */
  lemma {:induction false} AltsApart(code: seq<byte>, p: nat, a: Alts, last: int, hooked: nat, e: int)
    requires LaidAlts(code, p, a, last, hooked, e) == true
    ensures var q := p + 3 + BranchSize(a.b);
      && Node(code, p, BRANCH, if a.Or? then q else last)
      && LaidBranch(code, p + 3, a.b, if hooked > 0 then e else NULL) == true
      && (a.Or? ==> LaidAlts(code, q, a.others, last, if hooked > 0 then hooked - 1 else 0, e) == true)
  {
    hide Node, LaidBranch;
  }

  lemma {:induction false} AltsTogether(code: seq<byte>, p: nat, a: Alts, last: int, hooked: nat, e: int)
    requires Node(code, p, BRANCH, if a.Or? then p + 3 + BranchSize(a.b) else last)
    requires LaidBranch(code, p + 3, a.b, if hooked > 0 then e else NULL) == true
    requires a.Or? ==>
      LaidAlts(code, p + 3 + BranchSize(a.b), a.others, last, if hooked > 0 then hooked - 1 else 0, e) == true
    ensures LaidAlts(code, p, a, last, hooked, e) == true
  {
    hide Node, LaidBranch;
  }

  /** Setting the link of the last choice node. */
  lemma {:induction false} LinkAlts(code: seq<byte>, p: nat, a: Alts, k: nat, e: int)
    requires LaidAlts(code, p, a, NULL, 0, e) == true && p > 0 && p + AltsSize(a) <= |code| && p + AltsSize(a) <= k < p + 65536
    ensures Leads(code, p, LastChoice(p, a), NULL)
    ensures var t := LastChoice(p, a); LaidAlts(Linked(code, t, k - t), p, a, k, 0, e) == true
    decreases a
  {
    hide Leads, LaidBranch, LaidAlts;
    AltsApart(code, p, a, NULL, 0, e);
    LeadsAlts(code, p, a, NULL, 0, e);
    var t, q := LastChoice(p, a), p + 3 + BranchSize(a.b);
    LastIsNode(code, p, a, NULL, 0, e);
    var to := Linked(code, t, k - t);
    KeepBranch(code, to, p + 3, a.b, NULL);
    if a.Or? {
      LinkAlts(code, q, a.others, k, e);
      KeepNode(code, to, p, BRANCH, q);
    } else {
      LinkNode(code, p, BRANCH, k);
    }
    AltsTogether(to, p, a, k, 0, e);
  }

  lemma {:induction false} LastIsNode(code: seq<byte>, p: nat, a: Alts, last: int, hooked: nat, e: int)
    requires LaidAlts(code, p, a, last, hooked, e) == true
    ensures Node(code, LastChoice(p, a), BRANCH, last)
    decreases a
  {
    hide LaidBranch, Node;
    if a.Or? {
      LastIsNode(code, p + 3 + BranchSize(a.b), a.others, last, if hooked > 0 then hooked - 1 else 0, e);
    }
  }

  // ----- Hooking -----

  /** The `j`-th choice node. */
  function ChoiceAt(p: nat, a: Alts, j: nat): (q: nat)
    requires j < Count(a)
    ensures p <= q && q + 3 + BranchSize(BranchAt(a, j)) <= p + AltsSize(a)
    decreases a
  {
    if j == 0 then p else ChoiceAt(p + 3 + BranchSize(a.b), a.others, j - 1)
  }

  function BranchAt(a: Alts, j: nat): Branch
    requires j < Count(a)
    decreases a
  {
    if j == 0 then a.b else BranchAt(a.others, j - 1)
  }

  /** The `j`-th alternative, not hooked yet, and the link of its choice node. */
  lemma {:induction false} AltAt(code: seq<byte>, p: nat, a: Alts, e: nat, j: nat, hooked: nat)
    requires LaidAlts(code, p, a, e, hooked, e) == true && hooked <= j < Count(a)
    ensures var q := ChoiceAt(p, a, j);
      && Node(code, q, BRANCH, if j + 1 < Count(a) then ChoiceAt(p, a, j + 1) else e)
      && LaidBranch(code, q + 3, BranchAt(a, j), NULL) == true
    decreases a
  {
    hide Node, LaidBranch;
    if j > 0 {
      AltAt(code, p + 3 + BranchSize(a.b), a.others, e, j - 1, if hooked > 0 then hooked - 1 else 0);
    }
  }

  lemma {:induction false} ChoiceNext(p: nat, a: Alts, j: nat)
    requires j < Count(a)
    ensures j == 0 ==> ChoiceAt(p, a, j) == p && BranchAt(a, j) == a.b
    ensures j > 0 ==>
      && a.Or? && j - 1 < Count(a.others)
      && ChoiceAt(p, a, j) == ChoiceAt(p + 3 + BranchSize(a.b), a.others, j - 1) && BranchAt(a, j) == BranchAt(a.others, j - 1)
  {
  }

  /** Where the `j`-th alternative leads on from. */
  function HookAt(p: nat, a: Alts, j: nat): (t: nat)
    requires j < Count(a)
    ensures p + 3 <= t && t + 3 <= p + AltsSize(a)
  {
    BranchTail(ChoiceAt(p, a, j) + 3, BranchAt(a, j))
  }

  lemma {:induction false} HookFirst(code: seq<byte>, p: nat, a: Alts, e: nat, t: nat)
    requires LaidAlts(code, p, a, e, 0, e) == true && p > 0 && p + AltsSize(a) <= e < p + 65536 && e <= |code|
    requires t == BranchTail(p + 3, a.b)
    ensures LaidAlts(Linked(code, t, e - t), p, a, e, 1, e) == true
  {
    hide LaidBranch, LaidAlts, BranchTail, Leads, Node;
    AltsApart(code, p, a, e, 0, e);
    var q := p + 3 + BranchSize(a.b);
    var to := Linked(code, t, e - t);
    KeepNode(code, to, p, BRANCH, if a.Or? then q else e);
    LinkBranch(code, p + 3, a.b, e);
    if a.Or? { KeepAlts(code, to, q, a.others, e, 0, e); }
    AltsTogether(to, p, a, e, 1, e);
  }

  /** Making the `j`-th alternative go on at `e`. */
  lemma {:induction false} HookAlt(code: seq<byte>, p: nat, a: Alts, e: nat, j: nat, t: nat)
    requires LaidAlts(code, p, a, e, j, e) == true && j < Count(a) && p > 0 && p + AltsSize(a) <= e < p + 65536 && e <= |code|
    requires t == HookAt(p, a, j)
    ensures LaidAlts(Linked(code, t, e - t), p, a, e, j + 1, e) == true
    decreases a
  {
    hide LaidBranch, LaidAlts, BranchTail, ChoiceAt, BranchAt, Node;
    ChoiceNext(p, a, j);
    if j == 0 {
      HookFirst(code, p, a, e, t);
    } else {
      AltsApart(code, p, a, e, j, e);
      var q := p + 3 + BranchSize(a.b);
      var to := Linked(code, t, e - t);
      KeepNode(code, to, p, BRANCH, q);
      KeepBranch(code, to, p + 3, a.b, e);
      HookAlt(code, q, a.others, e, j - 1, t);
      AltsTogether(to, p, a, e, j + 1, e);
    }
  }

  // ----- What the emitting routines do to the code -----

  /** A node written at `p`, with a null link. */
  function Stamp(code: seq<byte>, p: nat, op: byte): (r: seq<byte>)
    requires InCode(code, p)
    ensures |r| == |code| && forall i :: 0 <= i < |code| && (i < p || p + 3 <= i) ==> r[i] == code[i]
    ensures Node(r, p, op, NULL)
  {
    code[p := op][p + 1 := 0][p + 2 := 0]
  }

  /** A node inserted at `p`; what was in `[p, end)` moves up. */
  function Inserted(code: seq<byte>, p: nat, end: nat, op: byte): (r: seq<byte>)
    requires p <= end && end + 3 <= |code|
    ensures |r| == |code| && forall i :: 0 <= i < p ==> r[i] == code[i]
    ensures forall i :: p <= i < end ==> r[i + 3] == code[i]
    ensures forall i :: end + 3 <= i < |code| ==> r[i] == code[i]
    ensures r[p] == op && r[p + 1] == 0 && r[p + 2] == 0
    ensures Node(r, p, op, NULL)
  {
    code[..p] + [op, 0, 0] + code[p..end] + code[end + 3..]
  }

  /** Links lead forward from `p` to `t`, whose link is null. */
  ghost predicate EndsAt(code: seq<byte>, p: nat, t: nat) {
    Path(code, p, t) && InCode(code, t) && Next(code, t) == NULL
  }

  lemma LeadsEnds(code: seq<byte>, p: nat, t: nat)
    requires Leads(code, p, t, NULL)
    ensures EndsAt(code, p, t) && code[t] != BACK
  {
  }

  lemma NodeEnds(code: seq<byte>, p: nat, op: byte)
    requires Node(code, p, op, NULL)
    ensures EndsAt(code, p, p)
  {
  }

  lemma LeadsThenEnds(code: seq<byte>, p: nat, t: nat, q: nat, u: nat)
    requires Leads(code, p, t, q) && p <= t < q <= u && EndsAt(code, q, u)
    ensures EndsAt(code, p, u)
  {
    PathJoin(code, p, t, u);
  }

  lemma InsertPiece(code: seq<byte>, p: nat, x: Piece, op: byte)
    requires Laid(code, p, x, NULL) == true && p > 0 && p + Size(x) + 3 <= |code|
    ensures Laid(Inserted(code, p, p + Size(x), op), p + 3, x, NULL) == true
  {
    hide Laid;
    var to := Inserted(code, p, p + Size(x), op);
    MovedAll(code, to, p, p + Size(x), 3);
    MovePiece(code, to, p, p + Size(x), 3, p, x, NULL);
  }

  lemma OpOf(code: seq<byte>, p: nat, op: byte, k: int)
    requires Node(code, p, op, k)
    ensures InCode(code, p) && code[p] == op
  {
  }

  lemma StepEnds(code: seq<byte>, p: nat, op: byte, q: nat, u: nat)
    requires Node(code, p, op, q) && op != BACK && p < q <= u && EndsAt(code, q, u)
    ensures EndsAt(code, p, u)
  {
  }

  // ----- A piece and the nodes around it, while they are being linked -----

  datatype Fact = N(p: nat, op: byte, k: int)

  ghost predicate Nodes(code: seq<byte>, ns: seq<Fact>) {
    forall i :: 0 <= i < |ns| ==> NodeIs(code, ns[i])
  }

  ghost predicate NodeIs(code: seq<byte>, n: Fact) {
    Node(code, n.p, n.op, n.k)
  }

  /** `y` at `at`, leading to `k`, and some nodes. */
  ghost predicate Parts(code: seq<byte>, at: nat, y: Piece, k: int, ns: seq<Fact>) {
    Laid(code, at, y, k) && Nodes(code, ns)
  }

  /** The piece and the nodes lie in `[lo, hi)`, and none overlaps another. */
  ghost predicate Tidy(at: nat, y: Piece, ns: seq<Fact>, lo: nat, hi: nat) {
    && 0 < lo <= at && at + Size(y) <= hi
    && (forall i :: 0 <= i < |ns| ==> Within(at, y, ns[i], lo, hi))
    && forall i, j :: 0 <= i < j < |ns| ==> Disjoint(ns[i], ns[j])
  }

  ghost predicate Within(at: nat, y: Piece, n: Fact, lo: nat, hi: nat) {
    lo <= n.p && n.p + 3 <= hi && (n.p + 3 <= at || at + Size(y) <= n.p)
  }

  ghost predicate Disjoint(n: Fact, m: Fact) {
    n.p + 3 <= m.p || m.p + 3 <= n.p
  }

  lemma NodeOf(code: seq<byte>, at: nat, y: Piece, k: int, ns: seq<Fact>, i: nat)
    requires Parts(code, at, y, k, ns) && i < |ns|
    ensures Node(code, ns[i].p, ns[i].op, ns[i].k) && InCode(code, ns[i].p) && code[ns[i].p] == ns[i].op
  {
    hide Laid;
    assert NodeIs(code, ns[i]);
  }

  /** Writing a node behind everything. */
  lemma StampParts(code: seq<byte>, at: nat, y: Piece, k: int, ns: seq<Fact>, lo: nat, q: nat, op: byte)
    requires Parts(code, at, y, k, ns) == true && Tidy(at, y, ns, lo, q) && k >= 0 && InCode(code, q)
    ensures var ns' := ns + [N(q, op, NULL)]; Parts(Stamp(code, q, op), at, y, k, ns') == true && Tidy(at, y, ns', lo, q + 3)
  {
    hide Laid, Node;
    var to, ns' := Stamp(code, q, op), ns + [N(q, op, NULL)];
    KeepPiece(code, to, at, y, k);
    forall i | 0 <= i < |ns'|
      ensures NodeIs(to, ns'[i]) && Within(at, y, ns'[i], lo, q + 3)
    {
      if i < |ns| {
        assert Within(at, y, ns[i], lo, q);
        NodeOf(code, at, y, k, ns, i);
        KeepNode(code, to, ns[i].p, ns[i].op, ns[i].k);
      }
    }
    forall i, j | 0 <= i < j < |ns'|
      ensures Disjoint(ns'[i], ns'[j])
    {
      assert Within(at, y, ns[i], lo, q);
    }
  }

  /** Linking the piece on. */
  lemma LinkTail(code: seq<byte>, at: nat, y: Piece, ns: seq<Fact>, lo: nat, hi: nat, q: nat)
    requires Parts(code, at, y, NULL, ns) == true && Tidy(at, y, ns, lo, hi) && hi <= |code|
    requires at + Size(y) <= q < at + 65536
    ensures EndsAt(code, at, Tail(at, y)) && code[Tail(at, y)] != BACK
    ensures Parts(Linked(code, Tail(at, y), q - Tail(at, y)), at, y, q, ns) == true
  {
    hide Laid, Node, EndsAt, Leads;
    LinkPiece(code, at, y, q);
    LeadsEnds(code, at, Tail(at, y));
    var to := Linked(code, Tail(at, y), q - Tail(at, y));
    forall i | 0 <= i < |ns|
      ensures NodeIs(to, ns[i])
    {
      assert Within(at, y, ns[i], lo, hi);
      NodeOf(code, at, y, NULL, ns, i);
      KeepNode(code, to, ns[i].p, ns[i].op, ns[i].k);
    }
  }

  /** The size of the link from `t` to `q`, which only a BACK node sets backwards. */
  function LinkSize(op: byte, t: nat, q: nat): nat
    requires if op == BACK then q <= t else t <= q
  {
    if op == BACK then t - q else q - t
  }

  /** Whether a node may be linked there. */
  predicate MayLink(n: Fact, q: nat) {
    n.k == NULL && if n.op == BACK then 0 < q < n.p < q + 65536 else n.p < q < n.p + 65536
  }

  /** Linking the `i`-th node on, or back. */
  lemma LinkPart(code: seq<byte>, at: nat, y: Piece, k: int, ns: seq<Fact>, lo: nat, hi: nat, i: nat, q: nat)
    requires Parts(code, at, y, k, ns) == true && Tidy(at, y, ns, lo, hi) && hi <= |code| && k >= 0
    requires i < |ns| && MayLink(ns[i], q)
    ensures InCode(code, ns[i].p) && code[ns[i].p] == ns[i].op && EndsAt(code, ns[i].p, ns[i].p)
    ensures var ns' := ns[i := ns[i].(k := q)];
      && Parts(Linked(code, ns[i].p, LinkSize(ns[i].op, ns[i].p, q)), at, y, k, ns') == true
      && Tidy(at, y, ns', lo, hi)
  {
    hide Laid, Node;
    var t, op := ns[i].p, ns[i].op;
    NodeOf(code, at, y, k, ns, i);
    assert Within(at, y, ns[i], lo, hi);
    NodeEnds(code, t, op);
    var to := Linked(code, t, LinkSize(op, t, q));
    if op == BACK { LinkBack(code, t, q); } else { LinkNode(code, t, op, q); }
    KeepPiece(code, to, at, y, k);
    var ns' := ns[i := ns[i].(k := q)];
    forall j | 0 <= j < |ns'|
      ensures NodeIs(to, ns'[j]) && Within(at, y, ns'[j], lo, hi)
    {
      assert Within(at, y, ns[j], lo, hi);
      if j != i {
        assert Disjoint(ns[if i < j then i else j], ns[if i < j then j else i]);
        NodeOf(code, at, y, k, ns, j);
        KeepNode(code, to, ns[j].p, ns[j].op, ns[j].k);
      }
    }
    forall l, j | 0 <= l < j < |ns'|
      ensures Disjoint(ns'[l], ns'[j])
    {
      assert Disjoint(ns[l], ns[j]);
    }
  }

  /** The way through the piece to a node right behind. */
  lemma TailEnds(code: seq<byte>, at: nat, y: Piece, ns: seq<Fact>, q: nat, u: nat)
    requires Parts(code, at, y, q, ns) == true && at + Size(y) <= q <= u && EndsAt(code, q, u)
    ensures EndsAt(code, at, u)
  {
    hide Laid, Node, EndsAt, Leads;
    LeadsPiece(code, at, y, q);
    LeadsThenEnds(code, at, Tail(at, y), q, u);
  }

  lemma InsertPart(code: seq<byte>, p: nat, x: Piece, op: byte)
    requires Laid(code, p, x, NULL) == true && p > 0 && p + Size(x) + 3 <= |code|
    ensures Parts(Inserted(code, p, p + Size(x), op), p + 3, x, NULL, [N(p, op, NULL)]) == true
  {
    hide Laid;
    InsertPiece(code, p, x, op);
  }

  lemma StarMade(code: seq<byte>, p: nat, y: Piece, ns: seq<Fact>)
    requires !Simple(y)
    requires var b := p + 3 + Size(y);
      && ns == [N(p, BRANCH, b + 3), N(b, BACK, p), N(b + 3, BRANCH, b + 6), N(b + 6, NOTHING, NULL)]
      && Parts(code, p + 3, y, b, ns) == true
    ensures LaidStar(code, p, y, NULL) == true
  {
    hide Laid, Node;
    var b := p + 3 + Size(y);
    NodeOf(code, p + 3, y, b, ns, 0);
    NodeOf(code, p + 3, y, b, ns, 1);
    NodeOf(code, p + 3, y, b, ns, 2);
    NodeOf(code, p + 3, y, b, ns, 3);
  }

  lemma PlusMade(code: seq<byte>, p: nat, y: Piece, ns: seq<Fact>)
    requires !Simple(y)
    requires var b := p + Size(y);
      && ns == [N(b, BRANCH, b + 6), N(b + 3, BACK, p), N(b + 6, BRANCH, b + 9), N(b + 9, NOTHING, NULL)]
      && Parts(code, p, y, b, ns) == true
    ensures LaidPlus(code, p, y, NULL) == true
  {
    hide Laid, Node;
    var b := p + Size(y);
    NodeOf(code, p, y, b, ns, 0);
    NodeOf(code, p, y, b, ns, 1);
    NodeOf(code, p, y, b, ns, 2);
    NodeOf(code, p, y, b, ns, 3);
  }

  lemma OptMade(code: seq<byte>, p: nat, y: Piece, ns: seq<Fact>)
    requires var b := p + 3 + Size(y);
      && ns == [N(p, BRANCH, b), N(b, BRANCH, b + 3), N(b + 3, NOTHING, NULL)]
      && Parts(code, p + 3, y, b + 3, ns) == true
    ensures LaidOpt(code, p, y, NULL) == true
  {
    hide Laid, Node;
    var b := p + 3 + Size(y);
    NodeOf(code, p + 3, y, b + 3, ns, 0);
    NodeOf(code, p + 3, y, b + 3, ns, 1);
    NodeOf(code, p + 3, y, b + 3, ns, 2);
  }

  lemma NoParts(code: seq<byte>, p: nat, y: Piece)
    requires Laid(code, p, y, NULL) == true && p > 0
    ensures Parts(code, p, y, NULL, []) == true && Tidy(p, y, [], p, p + Size(y))
  {
    hide Laid;
  }

  /** From the `i`-th node to where it is linked. */
  lemma ByWay(code: seq<byte>, at: nat, y: Piece, k: int, ns: seq<Fact>, i: nat, q: nat)
    requires Parts(code, at, y, k, ns) == true && i < |ns| && ns[i].k == q && ns[i].op != BACK && ns[i].p < q
    ensures EndsAt(code, q, q) ==> EndsAt(code, ns[i].p, q)
  {
    hide Laid, Node, EndsAt;
    NodeOf(code, at, y, k, ns, i);
    if EndsAt(code, q, q) { StepEnds(code, ns[i].p, ns[i].op, q, q); }
  }

  // ----- Whole branches and alternatives -----

  /** Before any alternative is hooked it does not matter where they are to go on. */
  lemma {:induction false} AnyEnd(code: seq<byte>, p: nat, a: Alts, last: int, e: int, e': int)
    requires LaidAlts(code, p, a, last, 0, e) == true
    ensures LaidAlts(code, p, a, last, 0, e') == true
    decreases a
  {
    hide LaidAlts;
    AltsApart(code, p, a, last, 0, e);
    if a.Or? { AnyEnd(code, p + 3 + BranchSize(a.b), a.others, last, e, e'); }
    AltsTogether(code, p, a, last, 0, e');
  }

  /** One alternative more, right behind the others, and linked to. */
  lemma AltAdded(code: seq<byte>, p: nat, a: Alts, b: Branch)
    requires var q := p + AltsSize(a);
      && LaidAlts(code, p, a, NULL, 0, 1) == true && Node(code, q, BRANCH, NULL) && LaidBranch(code, q + 3, b, NULL) == true
      && p > 0 && q + 3 + BranchSize(b) <= |code| < 65536
    ensures var q, t := p + AltsSize(a), LastChoice(p, a);
      && Leads(code, p, t, NULL)
      && LaidAlts(Linked(code, t, q - t), p, JoinAlts(a, One(b)), NULL, 0, 1) == true
  {
    hide LaidAlts, LaidBranch, Node, Leads, LastChoice;
    var q, t := p + AltsSize(a), LastChoice(p, a);
    LinkAlts(code, p, a, q, 1);
    var to := Linked(code, t, q - t);
    OpOf(code, q, BRANCH, NULL);
    KeepNode(code, to, q, BRANCH, NULL);
    KeepBranch(code, to, q + 3, b, NULL);
    AltsTogether(to, q, One(b), NULL, 0, 1);
    JoinAltsLaid(to, p, a, b, 1);
  }

  /** One piece more, right behind the others, and linked to. */
  lemma PieceAdded(code: seq<byte>, p: nat, b: Branch, x: Piece)
    requires var q := p + BranchSize(b);
      && b.Then? && LaidBranch(code, p, b, NULL) == true && Laid(code, q, x, NULL) == true
      && p > 0 && q + Size(x) <= |code| < 65536
    ensures var q, t := p + BranchSize(b), BranchTail(p, b);
      && Leads(code, LastAt(p, b), t, NULL)
      && LaidBranch(Linked(code, t, q - t), p, Join(b, Then(x, Empty)), NULL) == true
      && LastAt(p, Join(b, Then(x, Empty))) == q
  {
    hide LaidBranch, Laid, Leads, BranchTail, LastAt;
    var q, t := p + BranchSize(b), BranchTail(p, b);
    LinkBranch(code, p, b, q);
    var to := Linked(code, t, q - t);
    KeepPiece(code, to, q, x, NULL);
    JoinLaid(to, p, b, x, NULL);
  }

  /** By way of the node in front, if there is one. */
  lemma FromOpen(code: seq<byte>, ret: nat, op: byte, p: nat, t: nat)
    requires ret == p || (Node(code, ret, op, p) && op != BACK && ret < p)
    requires Leads(code, p, t, NULL) && p <= t
    ensures EndsAt(code, ret, t) && code[t] != BACK
  {
  }

  /** Why the `j`-th alternative can be hooked. */
  lemma HookReady(code: seq<byte>, p: nat, a: Alts, e: nat, j: nat)
    requires LaidAlts(code, p, a, e, j, e) == true && j < Count(a) && p > 0 && p + AltsSize(a) <= e < p + 65536 && e <= |code|
    ensures var q := ChoiceAt(p, a, j);
      && Node(code, q, BRANCH, if j + 1 < Count(a) then ChoiceAt(p, a, j + 1) else e)
      && EndsAt(code, q + 3, HookAt(p, a, j)) && code[HookAt(p, a, j)] != BACK
  {
    hide LaidAlts, LaidBranch, Node, Leads, BranchTail, EndsAt;
    var q := ChoiceAt(p, a, j);
    AltAt(code, p, a, e, j, j);
    LinkBranch(code, q + 3, BranchAt(a, j), e);
    LeadsEnds(code, q + 3, HookAt(p, a, j));
  }

  lemma SimpleMade(code: seq<byte>, p: nat, y: Piece, op: byte)
    requires Simple(y) && Parts(code, p + 3, y, NULL, [N(p, op, NULL)]) == true
    ensures op == STARS ==> LaidStar(code, p, y, NULL) == true
    ensures op == PLUSES ==> LaidPlus(code, p, y, NULL) == true
  {
    hide Laid, Node;
    NodeOf(code, p + 3, y, NULL, [N(p, op, NULL)], 0);
  }

  lemma LaidMade(code: seq<byte>, p: nat, y: Piece)
    ensures LaidStar(code, p, y, NULL) ==> Laid(code, p, Star(y), NULL) == true
    ensures LaidPlus(code, p, y, NULL) ==> Laid(code, p, Plus(y), NULL) == true
    ensures LaidOpt(code, p, y, NULL) ==> Laid(code, p, Opt(y), NULL) == true
  {
    hide LaidStar, LaidPlus, LaidOpt;
  }

  lemma NextIs(code: seq<byte>, p: nat, op: byte, k: int)
    requires Node(code, p, op, k)
    ensures InCode(code, p) && Next(code, p) == k
  {
  }

  /** Hooking an alternative does not change its choice node. */
  lemma ChoiceStays(from: seq<byte>, to: seq<byte>, p: nat, a: Alts, e: nat, j: nat, t: nat)
    requires LaidAlts(from, p, a, e, j, e) == true && j < Count(a) && 0 < p && p + AltsSize(a) <= e < p + 65536 && e <= |from|
    requires t == HookAt(p, a, j) && to == Linked(from, t, e - t)
    ensures InCode(to, ChoiceAt(p, a, j)) && Next(to, ChoiceAt(p, a, j)) == if j + 1 < Count(a) then ChoiceAt(p, a, j + 1) else e
  {
    hide LaidAlts, Node;
    var q := ChoiceAt(p, a, j);
    HookReady(from, p, a, e, j);
    OpOf(from, q, BRANCH, if j + 1 < Count(a) then ChoiceAt(p, a, j + 1) else e);
    KeepNode(from, to, q, BRANCH, if j + 1 < Count(a) then ChoiceAt(p, a, j + 1) else e);
    NextIs(to, q, BRANCH, if j + 1 < Count(a) then ChoiceAt(p, a, j + 1) else e);
  }

  /** What is still to be read behind the alternatives `a`: more of them after a bar. */
  function AltsFrom(a: Alts, e: seq<byte>, p: nat, npar: nat): Parsed<Alts>
    requires NulFree(e) && p <= |e| && npar > 0
  {
    if At(e, p) == BAR then BehindAlts(a, ParseAlts(e, p + 1, npar)) else Parsed(a, p, npar)
  }

  lemma FirstAlt(e: seq<byte>, p: nat, npar: nat)
    requires NulFree(e) && p <= |e| && npar > 0
    ensures match ParseBranch(e, p, npar)
      case Bad(m) => ParseAlts(e, p, npar) == Bad(m)
      case Parsed(b, q, n) =>
        && ParseAlts(e, p, npar) == AltsFrom(One(b), e, q, n)
        && (ParseAlts(e, p, npar).Parsed? ==> 3 + BranchSize(b) <= AltsSize(ParseAlts(e, p, npar).it))
  {
  }

  lemma NextAlt(a: Alts, e: seq<byte>, p: nat, npar: nat)
    requires NulFree(e) && p <= |e| && npar > 0 && At(e, p) == BAR
    ensures match ParseBranch(e, p + 1, npar)
      case Bad(m) => AltsFrom(a, e, p, npar) == Bad(m)
      case Parsed(b, q, n) =>
        var a', whole := JoinAlts(a, One(b)), AltsFrom(a, e, p, npar);
        && whole == AltsFrom(a', e, q, n) && AltsSize(a') == AltsSize(a) + 3 + BranchSize(b)
        && (whole.Parsed? ==> AltsSize(a') <= AltsSize(whole.it))
  {
    match ParseBranch(e, p + 1, npar)
    case Bad(m) =>
    case Parsed(b, q, n) =>
      FirstAlt(e, p + 1, npar);
      JoinAltsSize(a, One(b));
      if At(e, q) == BAR {
        var r := ParseAlts(e, q + 1, n);
        if r.Parsed? {
          JoinAltsTwice(a, b, r.it);
          JoinAltsSize(a, Or(b, r.it));
        }
      }
  }

  lemma NoMoreAlts(a: Alts, e: seq<byte>, p: nat, npar: nat)
    requires NulFree(e) && p <= |e| && npar > 0 && At(e, p) != BAR
    ensures AltsFrom(a, e, p, npar) == Parsed(a, p, npar)
  {
  }

  lemma OneWidth(b: Branch)
    ensures AltsHaveWidth(One(b)) == BranchHasWidth(b) && AltsSpStart(One(b)) == BranchSpStart(b)
    ensures AltsSize(One(b)) == 3 + BranchSize(b)
  {
  }

  lemma {:induction false} JoinAltsWidth(a: Alts, b: Branch)
    ensures AltsHaveWidth(JoinAlts(a, One(b))) == (AltsHaveWidth(a) && BranchHasWidth(b))
    ensures AltsSpStart(JoinAlts(a, One(b))) == (AltsSpStart(a) || BranchSpStart(b))
    decreases a
  {
    if a.Or? { JoinAltsWidth(a.others, b); }
  }

  lemma GroupMade(code: seq<byte>, p: nat, n: nat, a: Alts)
    requires var e := p + 3 + AltsSize(a);
      && n < NSUBEXP && Node(code, p, OPEN + n, p + 3) && LaidAlts(code, p + 3, a, e, Count(a), e) == true
      && Node(code, e, CLOSE + n, NULL)
    ensures Laid(code, p, Group(n, a), NULL) == true
  {
    hide Node, LaidAlts;
    assert LaidGroup(code, p, n, a, NULL);
  }

  lemma Smaller(y: Piece)
    ensures Size(Star(y)) >= Size(y) && Size(Plus(y)) >= Size(y) && Size(Opt(y)) >= Size(y)
  {
  }

  /** Hooking one alternative: it can be done, and leaves the node in front and the node behind as they are. */
  lemma HookOne(code: seq<byte>, ret: nat, open: bool, op: byte, p: nat, a: Alts, e: nat, ender: byte, j: nat, t: nat)
    requires LaidAlts(code, p, a, e, j, e) == true && j < Count(a) && p > 0 && e == p + AltsSize(a) < p + 65536 && e <= |code|
    requires t == HookAt(p, a, j) && Node(code, e, ender, NULL) && (open ==> ret + 3 == p && Node(code, ret, op, p))
    ensures var q := ChoiceAt(p, a, j);
      && InCode(code, q) && code[q] == BRANCH && EndsAt(code, q + 3, t) && code[t] != BACK && t < e
    ensures var to := Linked(code, t, e - t);
      && LaidAlts(to, p, a, e, j + 1, e) == true && Node(to, e, ender, NULL) && (open ==> Node(to, ret, op, p))
  {
    hide LaidAlts, LaidBranch, Node, EndsAt, ChoiceAt;
    var q := ChoiceAt(p, a, j);
    HookReady(code, p, a, e, j);
    HookAlt(code, p, a, e, j, t);
    OpOf(code, q, BRANCH, if j + 1 < Count(a) then ChoiceAt(p, a, j + 1) else e);
    OpOf(code, e, ender, NULL);
    var to := Linked(code, t, e - t);
    KeepNode(code, to, e, ender, NULL);
    if open {
      OpOf(code, ret, op, p);
      KeepNode(code, to, ret, op, p);
    }
  }
}
