/** What single nodes of a program do. */
module RegexRun {
  import opened Bits
  import opened RegexSyntax
  import opened RegexCode
  import opened RegexOrder

  /** The string operand at `p`. */
  function CString(code: seq<byte>, p: nat): seq<byte>
    decreases |code| - p
  {
    if At(code, p) == NUL then [] else [code[p]] + CString(code, p + 1)
  }

  predicate StartsWith(s: seq<byte>, i: nat, t: seq<byte>) {
    i + |t| <= |s| && s[i..i + |t|] == t
  }

  /** How many characters an ordinary node takes at `i`; -1 if it does not match there. */
  function Eats(code: seq<byte>, p: nat, s: seq<byte>, i: nat): (w: int)
    requires InCode(code, p) && i <= |s|
    ensures -1 <= w && i + w <= |s|
  {
    var op := code[p];
    var t := CString(code, p + 3);
    if op == BOL then if i == 0 then 0 else -1
    else if op == EOL then if i == |s| then 0 else -1
    else if op == ANY then if i < |s| then 1 else -1
    else if op == ANYOF then if i < |s| && s[i] in t then 1 else -1
    else if op == ANYBUT then if i < |s| && s[i] !in t then 1 else -1
    else if op == EXACTLY then if StartsWith(s, i, t) then |t| else -1
    else 0
  }

  predicate IsOrdinary(op: byte) {
    || op == BOL || op == EOL || op == ANY || op == ANYOF || op == ANYBUT || op == EXACTLY || op == NOTHING || op == BACK
    || OPEN < op < OPEN + NSUBEXP || CLOSE < op < CLOSE + NSUBEXP
  }

  /** Whether the operand of a STAR or PLUS node takes the character `c`. */
  predicate Takes(code: seq<byte>, p: nat, c: byte)
    requires InCode(code, p)
  {
    var op := code[p];
    || op == ANY
    || (op == EXACTLY && c == At(code, p + 3))
    || (op == ANYOF && c in CString(code, p + 3))
    || (op == ANYBUT && c !in CString(code, p + 3))
  }

  /** How many times in a row. */
  function Run(code: seq<byte>, p: nat, s: seq<byte>, i: nat): (n: nat)
    requires InCode(code, p) && i <= |s|
    ensures i + n <= |s|
    decreases |s| - i
  {
    if i < |s| && Takes(code, p, s[i]) then 1 + Run(code, p, s, i + 1) else 0
  }

  function Min(op: byte): nat {
    if op == STARS then 0 else 1
  }

  lemma NotBranch(code: seq<byte>, p: nat, op: byte, k: int)
    requires Node(code, p, op, k) && op != BRANCH
    ensures InCode(code, p) && code[p] != BRANCH
  {
  }

  lemma {:induction false} CStringIs(code: seq<byte>, p: nat, t: seq<byte>, i: nat)
    requires i <= |t| && OperandFrom(code, p, t, i) && NulFree(t)
    ensures CString(code, p + i) == t[i..]
    decreases |t| - i
  {
    if i < |t| {
      CStringIs(code, p, t, i + 1);
    }
  }

  /** A leaf takes what the expression takes. */
  lemma LeafTries(code: seq<byte>, p: nat, x: Piece, k: int, s: seq<byte>, i: nat, f: Rest)
    requires IsLeaf(x) && LaidLeaf(code, p, x, k) && Good(x) && i <= |s|
    ensures var w := Eats(code, p, s, i);
      Try(x, s, i, f) == (if w >= 0 then f(i + w) else Fail) && (w >= 0 && HasWidth(x) ==> w > 0)
  {
    match x
    case OneOf(c) => CStringIs(code, p + 3, c, 0);
    case NoneOf(c) => CStringIs(code, p + 3, c, 0);
    case Text(t) => CStringIs(code, p + 3, t, 0);
    case _ =>
  }

  /** A single character is taken alone and in repetition alike. */
  lemma SimpleTakes(code: seq<byte>, p: nat, y: Piece, k: int, s: seq<byte>, i: nat)
    requires Simple(y) && LaidLeaf(code, p, y, k) && Good(y) && i <= |s|
    ensures Eats(code, p, s, i) == if i < |s| && Takes(code, p, s[i]) then 1 else -1
  {
    match y
    case OneOf(c) => CStringIs(code, p + 3, c, 0);
    case NoneOf(c) => CStringIs(code, p + 3, c, 0);
    case Text(t) => CStringIs(code, p + 3, t, 0);
    case _ =>
  }
}
