/** The search that a program stands for, and that it is the search of the expression it was made from. */
module RegexSearch {
  import opened Bits
  import opened RegexSyntax
  import opened RegexCode
  import opened RegexOrder
  import opened RegexRun
  import opened RegexSafe

  /** Fewer and fewer characters, down to `min`. */
  function BackOff(k: Rest, i: nat, c: int, min: nat): Result
    decreases c
  {
    if c < min then Fail else OrElse(k(i + c), BackOff(k, i, c - 1, min))
  }

  /** Brackets note where they are passed. */
  function Noted(op: byte, i: nat, r: Result): Result {
    if OPEN < op < OPEN + NSUBEXP then Opened(op - OPEN, i, r)
    else if CLOSE < op < CLOSE + NSUBEXP then Closed(op - CLOSE, i, r)
    else r
  }

  /** The search from node `p` at `i`, for which `n` steps are enough. */
  ghost function Exec(code: seq<byte>, p: int, s: seq<byte>, i: nat, n: nat): (r: Result)
    requires i <= |s| && Safe(code, p, s, i, n)
    decreases n, 1
  {
    var op, next := code[p], Next(code, p);
    if op == END then Done(i)
    else if op == BRANCH then
      OrElse(Exec(code, p + 3, s, i, n - 1), if code[next] == BRANCH then Exec(code, next, s, i, n - 1) else Fail)
    else if op == STARS || op == PLUSES then
      BackOff(ExecFrom(code, next, s, n - 1), i, Run(code, p + 3, s, i), Min(op))
    else
      var w := Eats(code, p, s, i);
      if w < 0 then Fail else Noted(op, i, Exec(code, next, s, i + w, n - 1))
  }

  ghost function ExecFrom(code: seq<byte>, p: int, s: seq<byte>, n: nat): Rest
    decreases n, 2
  {
    (j: nat) => if j <= |s| && Safe(code, p, s, j, n) then Exec(code, p, s, j, n) else Fail
  }

  /** The search ends wherever it begins at `i`. */
  ghost predicate Ends(code: seq<byte>, p: int, s: seq<byte>, i: nat) {
    i <= |s| && exists n: nat :: Safe(code, p, s, i, n)
  }

  ghost function Search(code: seq<byte>, p: int, s: seq<byte>, i: nat): Result {
    if Ends(code, p, s, i) then
      var n: nat :| Safe(code, p, s, i, n);
      Exec(code, p, s, i, n)
    else Fail
  }

  /** What follows, as something to be done with the rest. */
  ghost function From(code: seq<byte>, p: int, s: seq<byte>): Rest {
    (j: nat) => Search(code, p, s, j)
  }

  ghost predicate SameAfter(f: Rest, g: Rest, i: nat, d: nat) {
    f(i + d) == g(i + d)
  }

  lemma {:induction false} SameBackOff(f: Rest, g: Rest, i: nat, c: int, min: nat)
    requires forall d: nat :: min <= d <= c ==> SameAfter(f, g, i, d)
    ensures BackOff(f, i, c, min) == BackOff(g, i, c, min)
    decreases c
  {
    if c >= min {
      assert SameAfter(f, g, i, c);
      SameBackOff(f, g, i, c - 1, min);
    }
  }

  /** How many steps are allowed does not matter. */
  lemma {:induction false} StepsDoNotMatter(code: seq<byte>, p: int, s: seq<byte>, i: nat, n: nat, m: nat)
    requires i <= |s| && Safe(code, p, s, i, n) && Safe(code, p, s, i, m)
    ensures Exec(code, p, s, i, n) == Exec(code, p, s, i, m)
    decreases n
  {
    var op, next := code[p], Next(code, p);
    if op == END {
    } else if op == BRANCH {
      StepsDoNotMatter(code, p + 3, s, i, n - 1, m - 1);
      if code[next] == BRANCH { StepsDoNotMatter(code, next, s, i, n - 1, m - 1); }
    } else if op == STARS || op == PLUSES {
      var f, g := ExecFrom(code, next, s, n - 1), ExecFrom(code, next, s, m - 1);
      forall c: nat | Min(op) <= c <= Run(code, p + 3, s, i)
        ensures SameAfter(f, g, i, c)
      {
        assert SafeAfter(code, next, s, i, c, n) && SafeAfter(code, next, s, i, c, m);
        StepsDoNotMatter(code, next, s, i + c, n - 1, m - 1);
      }
      SameBackOff(f, g, i, Run(code, p + 3, s, i), Min(op));
    } else {
      var w := Eats(code, p, s, i);
      if w >= 0 { StepsDoNotMatter(code, next, s, i + w, n - 1, m - 1); }
    }
  }

  lemma SearchIs(code: seq<byte>, p: int, s: seq<byte>, i: nat, n: nat)
    requires i <= |s| && Safe(code, p, s, i, n)
    ensures Search(code, p, s, i) == Exec(code, p, s, i, n)
  {
    var m: nat :| Safe(code, p, s, i, m) && Search(code, p, s, i) == Exec(code, p, s, i, m);
    StepsDoNotMatter(code, p, s, i, n, m);
  }

  // ----- By the kind of node -----

  lemma EndSearch(code: seq<byte>, p: nat, s: seq<byte>, i: nat)
    requires p > 0 && Node(code, p, END, NULL) && i <= |s|
    ensures Search(code, p, s, i) == Done(i)
  {
    assert Safe(code, p, s, i, 1);
    SearchEnd(code, p, s, i, 1);
  }

  lemma SearchEnd(code: seq<byte>, p: nat, s: seq<byte>, i: nat, n: nat)
    requires i <= |s| && Safe(code, p, s, i, n) && code[p] == END
    ensures Search(code, p, s, i) == Done(i)
  {
    SearchIs(code, p, s, i, n);
  }

  lemma NoSearch(code: seq<byte>, s: seq<byte>, i: nat)
    ensures Search(code, NULL, s, i) == Fail
  {
  }

  lemma OrdinarySearch(code: seq<byte>, p: nat, s: seq<byte>, i: nat, n: nat)
    requires i <= |s| && Safe(code, p, s, i, n) && IsOrdinary(code[p]) && code[p] != END
    ensures var w := Eats(code, p, s, i);
      Search(code, p, s, i) == if w < 0 then Fail else Noted(code[p], i, Search(code, Next(code, p), s, i + w))
  {
    SearchIs(code, p, s, i, n);
    var w := Eats(code, p, s, i);
    if w >= 0 { SearchIs(code, Next(code, p), s, i + w, n - 1); }
  }

  lemma BranchSearch(code: seq<byte>, p: nat, s: seq<byte>, i: nat, n: nat)
    requires i <= |s| && Safe(code, p, s, i, n) && code[p] == BRANCH
    ensures Search(code, p, s, i) == OrElse(Search(code, p + 3, s, i),
      if code[Next(code, p)] == BRANCH then Search(code, Next(code, p), s, i) else Fail)
  {
    SearchIs(code, p, s, i, n);
    SearchIs(code, p + 3, s, i, n - 1);
    if code[Next(code, p)] == BRANCH { SearchIs(code, Next(code, p), s, i, n - 1); }
  }

  lemma RepeatSearch(code: seq<byte>, p: nat, s: seq<byte>, i: nat, n: nat)
    requires i <= |s| && Safe(code, p, s, i, n) && (code[p] == STARS || code[p] == PLUSES)
    ensures Search(code, p, s, i) == BackOff(From(code, Next(code, p), s), i, Run(code, p + 3, s, i), Min(code[p]))
  {
    SearchIs(code, p, s, i, n);
    var next := Next(code, p);
    var f, g := ExecFrom(code, next, s, n - 1), From(code, next, s);
    forall c: nat | Min(code[p]) <= c <= Run(code, p + 3, s, i)
      ensures SameAfter(f, g, i, c)
    {
      assert SafeAfter(code, next, s, i, c, n);
      SearchIs(code, next, s, i + c, n - 1);
    }
    SameBackOff(f, g, i, Run(code, p + 3, s, i), Min(code[p]));
  }

  // ----- From anywhere in the string -----

  /** The search from `p` ends wherever it begins. */
  ghost predicate Sure(code: seq<byte>, p: int, s: seq<byte>) {
    exists n: nat :: AllSafe(code, p, s, 0, n)
  }

  lemma PassSearch(code: seq<byte>, p: nat, s: seq<byte>, op: byte, k: int)
    requires p > 0 && Node(code, p, op, k) && IsOrdinary(op) && (op == NOTHING || op == BACK || op > OPEN) && Sure(code, k, s)
    ensures Sure(code, p, s)
    ensures forall i: nat :: i <= |s| ==> Search(code, p, s, i) == Noted(op, i, Search(code, k, s, i))
  {
    var n: nat :| AllSafe(code, k, s, 0, n);
    PassSafe(code, p, s, 0, op, k, n);
    var m := n + 1;
    forall i: nat | i <= |s|
      ensures Search(code, p, s, i) == Noted(op, i, Search(code, k, s, i))
    {
      assert Safe(code, p, s, i, m);
      OrdinarySearch(code, p, s, i, m);
    }
  }

  /** A choice node whose link leads to no choice node: only its operand counts. */
  lemma LastBranchSearch(code: seq<byte>, p: nat, s: seq<byte>, k: nat)
    requires p > 0 && Node(code, p, BRANCH, k) && k > 0 && InCode(code, k) && code[k] != BRANCH && Sure(code, p + 3, s)
    ensures Sure(code, p, s) && forall i: nat :: i <= |s| ==> Search(code, p, s, i) == Search(code, p + 3, s, i)
  {
    var n: nat :| AllSafe(code, p + 3, s, 0, n);
    LastBranchSafe(code, p, s, 0, k, n);
    var m := n + 1;
    forall i: nat | i <= |s|
      ensures Search(code, p, s, i) == Search(code, p + 3, s, i)
    {
      assert Safe(code, p, s, i, m);
      BranchSearch(code, p, s, i, m);
    }
  }

  lemma OtherBranchSearch(code: seq<byte>, p: nat, s: seq<byte>, k: nat, l: int)
    requires p > 0 && k > 0 && Node(code, p, BRANCH, k) && Node(code, k, BRANCH, l)
    requires Sure(code, p + 3, s) && Sure(code, k, s)
    ensures Sure(code, p, s)
    ensures forall i: nat :: i <= |s| ==>
      Search(code, p, s, i) == OrElse(Search(code, p + 3, s, i), Search(code, k, s, i))
  {
    var n: nat :| AllSafe(code, p + 3, s, 0, n);
    var m: nat :| AllSafe(code, k, s, 0, m);
    var r := OtherBranchSafe(code, p, s, 0, k, l, n, m);
    forall i: nat | i <= |s|
      ensures Search(code, p, s, i) == OrElse(Search(code, p + 3, s, i), Search(code, k, s, i))
    {
      assert Safe(code, p, s, i, r);
      BranchSearch(code, p, s, i, r);
    }
  }

  // ----- By the kind of piece -----

  lemma PieceSure(code: seq<byte>, p: nat, x: Piece, k: nat, s: seq<byte>)
    requires Laid(code, p, x, k) == true && Good(x) && p > 0 && k > 0 && InCode(code, k) && Sure(code, k, s)
    ensures Sure(code, p, s)
  {
    hide Laid;
    var n: nat :| AllSafe(code, k, s, 0, n);
    Later(code, k, s, 0, Width(x), n);
    var m := PieceSafe(code, p, x, k, s, 0, n);
  }

  lemma StarSure(code: seq<byte>, p: nat, y: Piece, k: nat, s: seq<byte>)
    requires LaidStar(code, p, y, k) == true && Good(Star(y)) && p > 0 && k > 0 && InCode(code, k) && Sure(code, k, s)
    ensures Sure(code, p, s)
  {
    assert Laid(code, p, Star(y), k);
    PieceSure(code, p, Star(y), k, s);
  }

  lemma PlusSure(code: seq<byte>, p: nat, y: Piece, k: nat, s: seq<byte>)
    requires LaidPlus(code, p, y, k) == true && Good(Plus(y)) && p > 0 && k > 0 && InCode(code, k) && Sure(code, k, s)
    ensures Sure(code, p, s)
  {
    assert Laid(code, p, Plus(y), k);
    PieceSure(code, p, Plus(y), k, s);
  }

  lemma BranchSure(code: seq<byte>, p: nat, b: Branch, k: nat, s: seq<byte>)
    requires LaidBranch(code, p, b, k) == true && GoodBranch(b) && p > 0 && k > 0 && InCode(code, k) && Sure(code, k, s)
    ensures Sure(code, p, s) && InCode(code, p)
  {
    hide LaidBranch;
    var n: nat :| AllSafe(code, k, s, 0, n);
    Later(code, k, s, 0, BranchWidth(b), n);
    var m := BranchSafe(code, p, b, k, s, 0, n);
    BranchStarts(code, p, b, k);
  }

  lemma LeafSearch(code: seq<byte>, p: nat, x: Piece, k: nat, s: seq<byte>, i: nat)
    requires IsLeaf(x) && LaidLeaf(code, p, x, k) && Good(x) && p > 0 && i <= |s| && Sure(code, k, s)
    ensures Search(code, p, s, i) == Try(x, s, i, From(code, k, s))
  {
    var n: nat :| AllSafe(code, k, s, 0, n);
    Later(code, k, s, 0, Width(x), n);
    LeafSafe(code, p, x, k, s, 0, n);
    var m := n + 1;
    assert Safe(code, p, s, i, m);
    OrdinarySearch(code, p, s, i, m);
    LeafTries(code, p, x, k, s, i, From(code, k, s));
  }

  /** Backing off over one character more: what the repetition does behind it, and then nothing of it. */
  lemma {:induction false} OneMoreBackOff(k: Rest, i: nat, c: int, min: nat)
    requires c >= min
    ensures BackOff(k, i, c, min) == OrElse(BackOff(k, i + 1, c - 1, min), k(i + min))
    decreases c
  {
    if c > min { OneMoreBackOff(k, i, c - 1, min); }
  }

  /** A repeated single character: as many as there are, and then fewer. */
  lemma {:induction false} SimpleStar(code: seq<byte>, q: nat, y: Piece, s: seq<byte>, i: nat, k: Rest)
    requires Simple(y) && LaidLeaf(code, q, y, NULL) && Good(y) && i <= |s|
    ensures Try(Star(y), s, i, k) == BackOff(k, i, Run(code, q, s, i), 0)
    decreases |s| - i
  {
    SimpleTakes(code, q, y, NULL, s, i);
    LeafTries(code, q, y, NULL, s, i, Again(y, s, i, k));
    if i < |s| && Takes(code, q, s[i]) { SimpleStar(code, q, y, s, i + 1, k); }
    OneMoreBackOff(k, i, Run(code, q, s, i), 0);
  }

  lemma {:induction false} SimplePlus(code: seq<byte>, q: nat, y: Piece, s: seq<byte>, i: nat, k: Rest)
    requires Simple(y) && LaidLeaf(code, q, y, NULL) && Good(y) && i <= |s|
    ensures Try(Plus(y), s, i, k) == BackOff(k, i, Run(code, q, s, i), 1)
    decreases |s| - i
  {
    SimpleTakes(code, q, y, NULL, s, i);
    LeafTries(code, q, y, NULL, s, i, More(y, s, i, k));
    if i < |s| && Takes(code, q, s[i]) {
      SimplePlus(code, q, y, s, i + 1, k);
      OneMoreBackOff(k, i, Run(code, q, s, i), 1);
    }
  }

  lemma SimpleLoopSearch(code: seq<byte>, p: nat, y: Piece, op: byte, k: nat, s: seq<byte>, i: nat)
    requires Simple(y) && LaidLeaf(code, p + 3, y, NULL) && Good(y) && p > 0 && (op == STARS || op == PLUSES)
    requires Node(code, p, op, k) && k > 0 && InCode(code, k) && Sure(code, k, s) && i <= |s|
    ensures Search(code, p, s, i) == Try(if op == STARS then Star(y) else Plus(y), s, i, From(code, k, s))
  {
    var n: nat :| AllSafe(code, k, s, 0, n);
    Later(code, k, s, 0, Min(op), n);
    SimpleLoopSafe(code, p, y, op, k, s, 0, n);
    var m := n + 1;
    assert Safe(code, p, s, i, m);
    RepeatSearch(code, p, s, i, m);
    if op == STARS {
      SimpleStar(code, p + 3, y, s, i, From(code, k, s));
    } else {
      SimplePlus(code, p + 3, y, s, i, From(code, k, s));
    }
  }

  /** What surrounds the operand of a starred piece: the loop, and the way on. */
  lemma StarLoop(code: seq<byte>, p: nat, y: Piece, k: nat, s: seq<byte>)
    requires LaidStar(code, p, y, k) == true && !Simple(y) && Good(Star(y)) && p > 0
    requires k > 0 && InCode(code, k) && Sure(code, k, s)
    ensures var b := p + 3 + Size(y);
      && Laid(code, p + 3, y, b) == true && InCode(code, b) && Sure(code, b, s)
      && (forall j: nat :: j <= |s| ==> Search(code, b, s, j) == Search(code, p, s, j))
      && (forall j: nat :: j <= |s| ==> Search(code, p, s, j) == OrElse(Search(code, p + 3, s, j), Search(code, k, s, j)))
  {
    hide Node, Laid, Safe, AllSafe, Search;
    var b := p + 3 + Size(y);
    StarSure(code, p, y, k, s);
    PassSearch(code, b, s, BACK, p);
    NotBranch(code, b, BACK, p);
    PieceSure(code, p + 3, y, b, s);
    PassSearch(code, b + 6, s, NOTHING, k);
    NotBranch(code, b + 6, NOTHING, k);
    LastBranchSearch(code, b + 3, s, b + 6);
    OtherBranchSearch(code, p, s, b + 3, b + 6);
  }

  lemma StarSearch(code: seq<byte>, p: nat, y: Piece, k: nat, s: seq<byte>, i: nat)
    requires LaidStar(code, p, y, k) == true && !Simple(y) && Good(Star(y)) && p > 0
    requires k > 0 && InCode(code, k) && Sure(code, k, s) && i <= |s|
    ensures Search(code, p, s, i) == Try(Star(y), s, i, From(code, k, s))
    decreases y, 1, |s| - i
  {
    hide LaidStar, Laid, Sure, Search;
    var b := p + 3 + Size(y);
    StarLoop(code, p, y, k, s);
    PieceSearch(code, p + 3, y, b, s, i);
    var f, g := From(code, b, s), Again(y, s, i, From(code, k, s));
    forall j: nat | i < j <= |s|
      ensures f(j) == g(j)
    {
      StarSearch(code, p, y, k, s, j);
    }
    SameTry(y, s, i, f, g);
  }

  lemma PlusLoop(code: seq<byte>, p: nat, y: Piece, k: nat, s: seq<byte>)
    requires LaidPlus(code, p, y, k) == true && !Simple(y) && Good(Plus(y)) && p > 0
    requires k > 0 && InCode(code, k) && Sure(code, k, s)
    ensures var b := p + Size(y);
      && Laid(code, p, y, b) == true && InCode(code, b) && Sure(code, b, s)
      && (forall j: nat :: j <= |s| ==> Search(code, b, s, j) == OrElse(Search(code, p, s, j), Search(code, k, s, j)))
  {
    hide Node, Laid, Safe, AllSafe, Search;
    var b := p + Size(y);
    PlusSure(code, p, y, k, s);
    PassSearch(code, b + 3, s, BACK, p);
    PassSearch(code, b + 9, s, NOTHING, k);
    NotBranch(code, b + 9, NOTHING, k);
    LastBranchSearch(code, b + 6, s, b + 9);
    OtherBranchSearch(code, b, s, b + 6, b + 9);
    IsNode(code, b, BRANCH, b + 6);
  }

  lemma PlusSearch(code: seq<byte>, p: nat, y: Piece, k: nat, s: seq<byte>, i: nat)
    requires LaidPlus(code, p, y, k) == true && !Simple(y) && Good(Plus(y)) && p > 0
    requires k > 0 && InCode(code, k) && Sure(code, k, s) && i <= |s|
    ensures Search(code, p, s, i) == Try(Plus(y), s, i, From(code, k, s))
    decreases y, 1, |s| - i
  {
    hide LaidPlus, Laid, Sure, Search;
    var b := p + Size(y);
    PlusLoop(code, p, y, k, s);
    PieceSearch(code, p, y, b, s, i);
    var f, g := From(code, b, s), More(y, s, i, From(code, k, s));
    forall j: nat | i < j <= |s|
      ensures f(j) == g(j)
    {
      PlusSearch(code, p, y, k, s, j);
    }
    SameTry(y, s, i, f, g);
  }

  lemma OptSearch(code: seq<byte>, p: nat, y: Piece, k: nat, s: seq<byte>, i: nat)
    requires LaidOpt(code, p, y, k) == true && Good(y) && p > 0
    requires k > 0 && InCode(code, k) && Sure(code, k, s) && i <= |s|
    ensures Search(code, p, s, i) == Try(Opt(y), s, i, From(code, k, s))
    decreases y, 1
  {
    hide Node, Laid, Sure, Search;
    var b := p + 3 + Size(y);
    PassSearch(code, b + 3, s, NOTHING, k);
    NotBranch(code, b + 3, NOTHING, k);
    LastBranchSearch(code, b, s, b + 3);
    PieceSure(code, p + 3, y, b + 3, s);
    OtherBranchSearch(code, p, s, b, b + 3);
    PieceSearch(code, p + 3, y, b + 3, s, i);
    SameTry(y, s, i, From(code, b + 3, s), From(code, k, s));
  }

  lemma GroupSearch(code: seq<byte>, p: nat, no: nat, a: Alts, k: nat, s: seq<byte>, i: nat)
    requires LaidGroup(code, p, no, a, k) == true && Good(Group(no, a)) && p > 0
    requires Sure(code, k, s) && i <= |s|
    ensures Search(code, p, s, i) == Try(Group(no, a), s, i, From(code, k, s))
    decreases a, 2
  {
    hide Node, LaidAlts, Sure, Search;
    var q := p + 3 + AltsSize(a);
    PassSearch(code, q, s, CLOSE + no, k);
    NotBranch(code, q, CLOSE + no, k);
    AltsSearch(code, p + 3, a, q, Count(a), s, i);
    PassSearch(code, p, s, OPEN + no, p + 3);
    SameAlts(a, s, i, From(code, q, s), ThenClosed(no, From(code, k, s)));
  }

  /** The search from where a piece is laid is the search of the piece, and then of what is behind it. */
  lemma PieceSearch(code: seq<byte>, p: nat, x: Piece, k: nat, s: seq<byte>, i: nat)
    requires Laid(code, p, x, k) == true && Good(x) && p > 0
    requires k > 0 && InCode(code, k) && Sure(code, k, s) && i <= |s|
    ensures Search(code, p, s, i) == Try(x, s, i, From(code, k, s))
    decreases x, 0, 0
  {
    hide Node, Sure, Search, Try;
    if IsLeaf(x) {
      LeafSearch(code, p, x, k, s, i);
    } else {
      match x
      case Group(no, a) => GroupSearch(code, p, no, a, k, s, i);
      case Star(y) =>
        if Simple(y) {
          SimpleStarLaid(code, p, y, k);
          SimpleLoopSearch(code, p, y, STARS, k, s, i);
        } else {
          StarSearch(code, p, y, k, s, i);
        }
      case Plus(y) =>
        if Simple(y) {
          SimplePlusLaid(code, p, y, k);
          SimpleLoopSearch(code, p, y, PLUSES, k, s, i);
        } else {
          PlusSearch(code, p, y, k, s, i);
        }
      case Opt(y) => OptSearch(code, p, y, k, s, i);
    }
  }

  lemma {:induction false} BranchSearches(code: seq<byte>, p: nat, b: Branch, k: nat, s: seq<byte>, i: nat)
    requires LaidBranch(code, p, b, k) == true && GoodBranch(b) && p > 0
    requires k > 0 && InCode(code, k) && Sure(code, k, s) && i <= |s|
    ensures Search(code, p, s, i) == TryBranch(b, s, i, From(code, k, s))
    decreases b, 0
  {
    hide Node, Laid, Sure, Search;
    match b
    case Empty =>
      PassSearch(code, p, s, NOTHING, k);
    case Then(x, rest) =>
      var g := ThenRest(rest, s, From(code, k, s));
      if rest == Empty {
        PieceSearch(code, p, x, k, s, i);
        SameTry(x, s, i, From(code, k, s), g);
      } else {
        var q := p + Size(x);
        BranchSure(code, q, rest, k, s);
        PieceSearch(code, p, x, q, s, i);
        var f := From(code, q, s);
        forall j: nat | i <= j <= |s|
          ensures f(j) == g(j)
        {
          BranchSearches(code, q, rest, k, s, j);
        }
        SameTry(x, s, i, f, g);
      }
  }

  lemma {:induction false} AltsSearch(code: seq<byte>, p: nat, a: Alts, q: nat, hooked: nat, s: seq<byte>, i: nat)
    requires LaidAlts(code, p, a, q, hooked, q) == true && GoodAlts(a) && hooked >= Count(a) && p > 0
    requires q > 0 && InCode(code, q) && code[q] != BRANCH && Sure(code, q, s) && i <= |s|
    ensures Sure(code, p, s) && Search(code, p, s, i) == TryAlts(a, s, i, From(code, q, s))
    decreases a, 0
  {
    hide Node, LaidBranch, LaidAlts, Sure, Search;
    AltsParts(code, p, a, hooked, q);
    BranchSearches(code, p + 3, a.b, q, s, i);
    BranchSure(code, p + 3, a.b, q, s);
    match a
    case One(b) =>
      LastBranchSearch(code, p, s, q);
    case Or(b, others) =>
      var r := p + 3 + BranchSize(b);
      AltsSearch(code, r, others, q, hooked - 1, s, i);
      OtherBranchSearch(code, p, s, r, if others.Or? then r + 3 + BranchSize(others.b) else q);
  }

  /** A complete program searches as the expression does. */
  lemma ProgramSearch(code: seq<byte>, a: Alts, s: seq<byte>, i: nat)
    requires Program(code, a) && GoodAlts(a) && i <= |s|
    ensures Sure(code, 1, s) && Search(code, 1, s, i) == First(a, s, i)
  {
    hide Node, Search;
    var q := 1 + AltsSize(a);
    NotBranch(code, q, END, NULL);
    EndSafe(code, q, s);
    assert AllSafe(code, q, s, 0, 1);
    AltsSearch(code, 1, a, q, Count(a), s, i);
    forall j: nat | j <= |s|
      ensures Search(code, q, s, j) == Done(j)
    {
      EndSearch(code, q, s, j);
    }
    SameAlts(a, s, i, From(code, q, s), Done);
  }
}
