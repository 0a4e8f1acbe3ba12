/** Why patterns are refused: the reason given is one that can be seen in the text. */
module RegexErrors {
  import opened Bits
  import opened RegexSyntax

  /** How many opening brackets stand before `p`. */
  function Opening(e: seq<byte>, p: nat): nat
    requires p <= |e|
  {
    if p == 0 then 0 else Opening(e, p - 1) + if e[p - 1] == LPAREN then 1 else 0
  }

  lemma {:induction false} OpeningGrows(e: seq<byte>, p: nat, q: nat)
    requires p <= q <= |e|
    ensures Opening(e, p) <= Opening(e, q)
  {
    if p < q { OpeningGrows(e, p, q - 1); }
  }

  /** Where a class that opens at `p` has its first character. */
  function FirstIn(e: seq<byte>, p: nat): nat {
    if At(e, p + 1) == HAT then p + 2 else p + 1
  }

  /** Nothing stands here to be repeated. */
  predicate BeginsBranch(e: seq<byte>, p: nat)
    requires p <= |e|
  {
    p == 0 || e[p - 1] == LPAREN || e[p - 1] == BAR
  }

  /** The text has this fault at `q`. */
  predicate FaultAt(e: seq<byte>, q: nat, m: Error)
    requires q <= |e|
  {
    match m
    case TooManyParens => At(e, q) == LPAREN && Opening(e, q) >= NSUBEXP - 1
    case UnmatchedParens => At(e, q) == RPAREN || (q == |e| && LPAREN in e)
    case OperandCouldBeEmpty => At(e, q) == STAR || At(e, q) == PLUS
    case NestedRepeat => IsMult(At(e, q)) && IsMult(At(e, q + 1))
    case RepeatsNothing => IsMult(At(e, q)) && BeginsBranch(e, q)
    case InvalidRange => 0 < q && q + 1 < |e| && e[q] == MINUS && e[q - 1] > e[q + 1]
    case UnmatchedBracket => At(e, q) == LBRACK && forall k :: FirstIn(e, q) < k < |e| ==> e[k] != RBRACK
    case TrailingBackslash => q + 1 == |e| && e[q] == BACKSLASH
    case _ => false
  }

  ghost predicate HasFault(e: seq<byte>, m: Error) {
    exists q: nat :: q <= |e| && FaultAt(e, q, m)
  }

  /** `p` is the place of a bracket, an alternative or a piece: what is repeated there begins there, and brackets were counted. */
  predicate Stands(e: seq<byte>, p: nat, npar: nat) {
    p <= |e| && npar > 0 && npar - 1 <= Opening(e, p)
  }

  predicate StandsAhead(e: seq<byte>, p: nat, npar: nat) {
    Stands(e, p, npar) && (IsMult(At(e, p)) ==> BeginsBranch(e, p))
  }

  lemma {:induction false} ClassFault(e: seq<byte>, open: nat, p: nat, acc: seq<byte>)
    requires NulFree(e) && NulFree(acc) && open < |e| && e[open] == LBRACK && FirstIn(e, open) <= p <= |e|
    requires forall k :: FirstIn(e, open) < k < p ==> e[k] != RBRACK
    requires p == FirstIn(e, open) ==> At(e, p) != RBRACK
    ensures ParseClass(e, p, acc).Bad? ==> HasFault(e, ParseClass(e, p, acc).error)
    decreases |e| - p
  {
    hide HasFault, Range;
    if p == |e| {
      Fault(e, open, UnmatchedBracket);
    } else if e[p] != RBRACK {
      if e[p] == MINUS && At(e, p + 1) != RBRACK && At(e, p + 1) != NUL {
        if e[p - 1] > e[p + 1] {
          Fault(e, p, InvalidRange);
        } else {
          ClassFault(e, open, p + 2, acc + Range(e[p - 1] as int + 1, e[p + 1]));
        }
      } else if e[p] == MINUS {
        ClassFault(e, open, p + 1, acc + [MINUS]);
      } else {
        ClassFault(e, open, p + 1, acc + [e[p]]);
      }
    }
  }

  lemma Fault(e: seq<byte>, q: nat, m: Error)
    requires q <= |e| && FaultAt(e, q, m)
    ensures HasFault(e, m)
  {
  }

  lemma SetFault(e: seq<byte>, open: nat)
    requires NulFree(e) && open < |e| && e[open] == LBRACK
    ensures SetAt(e, open + 1).Bad? ==> HasFault(e, SetAt(e, open + 1).error)
  {
    hide HasFault, ParseClass;
    var p := FirstIn(e, open);
    if At(e, p) == RBRACK || At(e, p) == MINUS {
      ClassFault(e, open, p + 1, [e[p]]);
    } else {
      ClassFault(e, open, p, []);
    }
  }

  lemma {:induction false} GroupFault(e: seq<byte>, p: nat, npar: nat)
    requires NulFree(e) && 0 < p <= |e| && e[p - 1] == LPAREN && Stands(e, p - 1, npar)
    ensures var r := ParseGroup(e, p, npar);
      if r.Bad? then HasFault(e, r.error) else Stands(e, r.pos, r.npar)
    decreases |e| - p, 4
  {
    hide HasFault, ParseAlts;
    if npar >= NSUBEXP {
      Fault(e, p - 1, TooManyParens);
    } else {
      AltsFault(e, p, npar + 1);
      var r := ParseAlts(e, p, npar + 1);
      if r.Parsed? {
        if At(e, r.pos) == RPAREN {
          OpeningGrows(e, r.pos, r.pos + 1);
        } else {
          assert e[p - 1] in e;
          Fault(e, |e|, UnmatchedParens);
        }
      }
    }
  }

  lemma {:induction false} AtomFault(e: seq<byte>, p: nat, npar: nat)
    requires NulFree(e) && StandsAhead(e, p, npar) && !EndsBranch(At(e, p))
    ensures var r := ParseAtom(e, p, npar);
      if r.Bad? then HasFault(e, r.error) else Stands(e, r.pos, r.npar)
    decreases |e| - p, 0
  {
    hide HasFault, ParseGroup, SetAt;
    var c, r := At(e, p), ParseAtom(e, p, npar);
    if c == LBRACK {
      SetFault(e, p);
    } else if c == LPAREN {
      GroupFault(e, p + 1, npar);
    } else if IsMult(c) {
      Fault(e, p, RepeatsNothing);
    } else if c == BACKSLASH && At(e, p + 1) == NUL {
      Fault(e, p, TrailingBackslash);
    }
    if r.Parsed? && c != LPAREN { OpeningGrows(e, p, r.pos); }
  }

  lemma {:induction false} PieceFault(e: seq<byte>, p: nat, npar: nat)
    requires NulFree(e) && StandsAhead(e, p, npar) && !EndsBranch(At(e, p))
    ensures var r := ParsePiece(e, p, npar);
      if r.Bad? then HasFault(e, r.error) else StandsAhead(e, r.pos, r.npar)
    decreases |e| - p, 1
  {
    hide HasFault, ParseAtom;
    AtomFault(e, p, npar);
    var r := ParseAtom(e, p, npar);
    if r.Parsed? && IsMult(At(e, r.pos)) {
      if !HasWidth(r.it) && At(e, r.pos) != QUERY {
        Fault(e, r.pos, OperandCouldBeEmpty);
      } else if IsMult(At(e, r.pos + 1)) {
        Fault(e, r.pos, NestedRepeat);
      } else {
        OpeningGrows(e, r.pos, r.pos + 1);
      }
    }
  }

  lemma {:induction false} BranchFault(e: seq<byte>, p: nat, npar: nat)
    requires NulFree(e) && StandsAhead(e, p, npar)
    ensures var r := ParseBranch(e, p, npar);
      if r.Bad? then HasFault(e, r.error) else Stands(e, r.pos, r.npar)
    decreases |e| - p, 2
  {
    hide HasFault, ParsePiece;
    if !EndsBranch(At(e, p)) {
      PieceFault(e, p, npar);
      var r := ParsePiece(e, p, npar);
      if r.Parsed? { BranchFault(e, r.pos, r.npar); }
    }
  }

  lemma {:induction false} AltsFault(e: seq<byte>, p: nat, npar: nat)
    requires NulFree(e) && Stands(e, p, npar) && BeginsBranch(e, p)
    ensures var r := ParseAlts(e, p, npar);
      if r.Bad? then HasFault(e, r.error) else Stands(e, r.pos, r.npar)
    decreases |e| - p, 3
  {
    hide HasFault, ParseBranch;
    BranchFault(e, p, npar);
    var r := ParseBranch(e, p, npar);
    if r.Parsed? && At(e, r.pos) == BAR {
      OpeningGrows(e, r.pos, r.pos + 1);
      AltsFault(e, r.pos + 1, r.npar);
    }
  }

  /** A pattern is refused for a fault that it has; the two internal errors and junk at the end never occur. */
  lemma RefusedForFault(e: seq<byte>)
    requires NulFree(e)
    ensures Parse(e).Bad? ==> HasFault(e, Parse(e).error)
  {
    hide HasFault, ParseAlts;
    AltsFault(e, 0, 1);
    var r := ParseAlts(e, 0, 1);
    if r.Parsed? && At(e, r.pos) != NUL { Fault(e, r.pos, UnmatchedParens); }
  }
}
