/**
 The compiler. It reads the pattern twice with the same routines: first only counting the bytes of
 the program, then writing them.
 */
module RegexCompile {
  import opened Bits
  import opened RegexSyntax
  import opened RegexCode
  import opened RegexBuild

  /** What `regnode` and its callers return while only counting. */
  const DUMMY: nat := 0

  /** A program can be at most this long, so that links fit. */
  const LIMIT: nat := 32767

  datatype Option = None | Some(error: Error)

  datatype Reply = Refused(error: Error) | Placed(ret: nat)

  datatype Flags = Flags(hasWidth: bool, simple: bool, spStart: bool)

  /** What is passed up about a piece. */
  function FlagsOf(x: Piece): Flags {
    Flags(HasWidth(x), Simple(x), SpStart(x))
  }

  /** From one state of the program to another: `n` bytes written behind `p`, or counted. */
  ghost predicate Grown(emitting: bool, before: seq<byte>, p: nat, size: nat, after: seq<byte>, q: nat, size': nat, n: nat) {
    if emitting then q == p + n <= |before| == |after| && size' == size && Same(before, after, 0, p)
    else q == p && size' == size + n && after == before
  }

  /** The text `t` at `p`. */
  ghost predicate TextAt(code: seq<byte>, p: nat, t: seq<byte>) {
    p + |t| <= |code| && forall i :: 0 <= i < |t| ==> code[p + i] == t[i]
  }

  lemma OperandWritten(code: seq<byte>, p: nat, t: seq<byte>, i: nat)
    requires i <= |t| && TextAt(code, p, t + [NUL])
    ensures OperandFrom(code, p, t, i)
    decreases |t| - i
  {
    assert code[p + i] == (t + [NUL])[i];
    if i < |t| { OperandWritten(code, p, t, i + 1); }
  }

  /** A leaf: its node, and behind it its characters and the terminator. */
  lemma LeafWritten(c0: seq<byte>, code: seq<byte>, p: nat, x: Piece, t: seq<byte>)
    requires IsLeaf(x) && Node(c0, p, LeafOp(x), NULL) && Same(c0, code, 0, p + 3)
    requires x == OneOf(t) || x == NoneOf(t) || x == Text(t) ==> TextAt(code, p + 3, t + [NUL])
    requires x == OneOf(t) || x == NoneOf(t) || x == Text(t) || LeafSize(x) == 3
    ensures Laid(code, p, x, NULL) == true
  {
    hide Node, TextAt;
    OpOf(c0, p, LeafOp(x), NULL);
    KeepNode(c0, code, p, LeafOp(x), NULL);
    if LeafSize(x) > 3 { OperandWritten(code, p + 3, t, 0); }
  }

  class Compiler {
    const exp: seq<byte>
    var regparse: nat
    var regnpar: nat
    var emitting: bool
    var regcode: nat
    var regsize: nat
    var code: array<byte>

    constructor (exp: seq<byte>)
      requires NulFree(exp)
      ensures this.exp == exp && fresh(code)
      ensures regparse == 0 && regnpar == 1 && !emitting && regcode == 0 && regsize == 0
    {
      this.exp, regparse, regnpar, emitting, regcode, regsize := exp, 0, 1, false, 0, 0;
      code := new byte[0];
    }

    /** Nothing is written but behind `regcode`; the count goes up by `n`, or `regcode` does. */
    ghost predicate Put(before: seq<byte>, p: nat, size: nat, n: nat)
      reads this, code
    {
      Grown(emitting, before, p, size, code[..], regcode, regsize, n)
    }

    /** There is room for `n` more bytes, if it matters. */
    ghost predicate Room(n: nat)
      reads this
    {
      emitting ==> 0 < regcode && regcode + n <= code.Length <= LIMIT
    }

    method RegNode(op: byte) returns (ret: nat)
      requires Room(3)
      modifies this`regcode, this`regsize, code
      ensures Put(old(code[..]), old(regcode), old(regsize), 3)
      ensures ret == if emitting then old(regcode) else DUMMY
      ensures emitting ==> code[..] == Stamp(old(code[..]), ret, op)
    {
      if !emitting {
        regsize := regsize + 3;
        return DUMMY;
      }
      ret := regcode;
      code[ret] := op;
      code[ret + 1] := 0;
      code[ret + 2] := 0;
      regcode := regcode + 3;
    }

    method RegC(b: byte)
      requires emitting ==> regcode < code.Length
      modifies this`regcode, this`regsize, code
      ensures Put(old(code[..]), old(regcode), old(regsize), 1)
      ensures emitting ==> code[..] == old(code[..])[old(regcode) := b]
    {
      if emitting {
        code[regcode] := b;
        regcode := regcode + 1;
      } else {
        regsize := regsize + 1;
      }
    }

    /** Insert a node in front of the operand at `opnd`, which moves up. */
    method RegInsert(op: byte, opnd: nat)
      requires Room(3) && (emitting ==> 0 < opnd <= regcode)
      modifies this`regcode, this`regsize, code
      ensures !emitting ==> regcode == old(regcode) && regsize == old(regsize) + 3 && code[..] == old(code[..])
      ensures emitting ==> regcode == old(regcode) + 3 && regsize == old(regsize)
      ensures emitting ==> code[..] == Inserted(old(code[..]), opnd, old(regcode), op)
    {
      if !emitting {
        regsize := regsize + 3;
        return;
      }
      var src := regcode;
      regcode := regcode + 3;
      var dst := regcode;
      ghost var was := code[..];
      while src > opnd
        invariant opnd <= src <= old(regcode) && dst == src + 3 && regcode == old(regcode) + 3 <= |was| == code.Length
        invariant regsize == old(regsize)
        invariant forall i :: 0 <= i < src ==> code[i] == was[i]
        invariant forall i :: dst <= i < regcode ==> code[i] == was[i - 3]
        invariant forall i :: regcode <= i < |was| ==> code[i] == was[i]
      {
        dst, src := dst - 1, src - 1;
        code[dst] := code[src];
      }
      code[opnd] := op;
      code[opnd + 1] := 0;
      code[opnd + 2] := 0;
      ghost var r := Inserted(was, opnd, old(regcode), op);
      forall i | 0 <= i < |was|
        ensures code[i] == r[i]
      {
        if opnd + 3 <= i < regcode { assert r[(i - 3) + 3] == was[i - 3]; }
      }
      assert code[..] == r;
    }

    method RegNext(p: nat) returns (next: int)
      requires emitting ==> InCode(code[..], p)
      ensures next == if emitting then Next(code[..], p) else NULL
    {
      if !emitting {
        return NULL;
      }
      var offset := code[p + 1] as int * 256 + code[p + 2];
      if offset == 0 {
        return NULL;
      }
      next := if code[p] == BACK then p - offset else p + offset;
    }

    /** Set the link at the end of the chain that begins at `p`; `t` is where it ends. */
    method RegTail(p: nat, val: nat, ghost t: nat)
      requires emitting ==> EndsAt(code[..], p, t) && code.Length <= LIMIT && val <= code.Length
      requires emitting ==> if code[t] == BACK then val < t else t < val
      modifies code
      ensures emitting ==> code[..] == Linked(old(code[..]), t, if old(code[t]) == BACK then t - val else val - t)
      ensures !emitting ==> code[..] == old(code[..])
    {
      if !emitting {
        return;
      }
      var scan := p;
      var temp := RegNext(scan);
      while temp != NULL
        invariant EndsAt(code[..], scan, t) && temp == Next(code[..], scan) && code[..] == old(code[..])
        decreases t - scan
      {
        scan := temp;
        temp := RegNext(scan);
      }
      assert scan == t;
      var offset := if code[scan] == BACK then scan - val else val - scan;
      code[scan + 1] := offset / 256 % 256;
      code[scan + 2] := offset % 256;
    }

    /** The same for the operand of a choice node; nothing else has one. */
    method RegOpTail(p: nat, val: nat, ghost t: nat)
      requires emitting ==> InCode(code[..], p)
      requires emitting && code[p] == BRANCH ==> EndsAt(code[..], p + 3, t) && code.Length <= LIMIT && val <= code.Length
      requires emitting && code[p] == BRANCH ==> if code[t] == BACK then val < t else t < val
      modifies code
      ensures emitting && old(code[p]) == BRANCH ==>
        code[..] == Linked(old(code[..]), t, if old(code[t]) == BACK then t - val else val - t)
      ensures !emitting || old(code[p]) != BRANCH ==> code[..] == old(code[..])
    {
      if !emitting || code[p] != BRANCH {
        return;
      }
      RegTail(p + 3, val, t);
    }

    // ----- Bracketed classes and literal text -----

    /** What has been emitted from `p` on is the text `t`. */
    ghost predicate Wrote(p: nat, t: seq<byte>)
      reads this, code
    {
      emitting ==> TextAt(code[..], p, t)
    }

    /** One byte of an operand of which `t` is written. */
    method RegByte(b: byte, ghost before: seq<byte>, ghost p: nat, ghost size: nat, ghost t: seq<byte>)
      requires Put(before, p, size, |t|) && Wrote(p, t) && (emitting ==> regcode < code.Length)
      modifies this`regcode, this`regsize, code
      ensures Put(before, p, size, |t| + 1) && Wrote(p, t + [b])
    {
      RegC(b);
    }

    /** The characters of a range. */
    method RegRange(lo: nat, hi: nat, ghost before: seq<byte>, ghost p: nat, ghost size: nat, ghost t: seq<byte>)
      requires 0 < lo <= hi + 1 <= 256 && Put(before, p, size, |t|) && Wrote(p, t) && Room(|Range(lo, hi)|)
      modifies this`regcode, this`regsize, code
      ensures var all := t + Range(lo, hi); Put(before, p, size, |all|) && Wrote(p, all)
    {
      var class_ := lo;
      ghost var acc := t;
      while class_ <= hi
        invariant lo <= class_ <= hi + 1 && acc + Range(class_, hi) == t + Range(lo, hi)
        invariant Put(before, p, size, |acc|) && Wrote(p, acc)
      {
        RegByte(class_, before, p, size, acc);
        acc := acc + [class_ as byte];
        class_ := class_ + 1;
      }
    }

    /** Room for the rest of a class, of which `acc` is written, and the terminator. */
    ghost predicate ClassRoom(acc: seq<byte>)
      requires NulFree(exp) && NulFree(acc) && 0 < regparse <= |exp|
      reads this
    {
      var whole := ParseClass(exp, regparse, acc);
      emitting ==> whole.Parsed? && |acc| <= |whole.it| && Room(|whole.it| - |acc| + 1)
    }

    /** One member or range of a class. */
    method RegMember(ghost before: seq<byte>, ghost p: nat, ghost size: nat, ghost acc: seq<byte>)
      returns (error: Option, ghost acc': seq<byte>)
      requires NulFree(exp) && NulFree(acc) && 0 < regparse < |exp| && exp[regparse] != RBRACK
      requires Put(before, p, size, |acc|) && Wrote(p, acc) && ClassRoom(acc)
      modifies this`regparse, this`regcode, this`regsize, code
      ensures error.Some? ==> ParseClass(exp, old(regparse), acc) == Bad(error.error)
      ensures error == None ==>
        && old(regparse) < regparse <= |exp| && NulFree(acc')
        && ParseClass(exp, regparse, acc') == ParseClass(exp, old(regparse), acc)
        && Put(before, p, size, |acc'|) && Wrote(p, acc') && ClassRoom(acc')
    {
      error, acc' := None, acc;
      if At(exp, regparse) == MINUS {
        regparse := regparse + 1;
        if At(exp, regparse) == RBRACK || At(exp, regparse) == NUL {
          acc' := acc + [MINUS];
          ParseClassExtends(exp, regparse, acc');
          RegByte(MINUS, before, p, size, acc);
        } else {
          var class_: nat := exp[regparse - 2] as int + 1;
          var classend: nat := exp[regparse];
          if class_ > classend + 1 {
            return Some(InvalidRange), acc;
          }
          acc' := acc + Range(class_, classend);
          ParseClassExtends(exp, regparse + 1, acc');
          RegRange(class_, classend, before, p, size, acc);
          regparse := regparse + 1;
        }
      } else {
        acc' := acc + [exp[regparse]];
        ParseClassExtends(exp, regparse + 1, acc');
        RegByte(exp[regparse], before, p, size, acc);
        regparse := regparse + 1;
      }
    }

    /** The members of a class, from behind the bracket and the hat, and the terminator. */
    method RegClass() returns (error: Option)
      requires NulFree(exp) && 0 < regparse <= |exp|
      requires emitting ==> ParseSet(exp, regparse).Parsed? && Room(|ParseSet(exp, regparse).it| + 1)
      modifies this`regparse, this`regcode, this`regsize, code
      ensures match ParseSet(exp, old(regparse))
        case Bad(m) => error == Some(m)
        case Parsed(set_, q, _) =>
          && error == None && regparse == q
          && Put(old(code[..]), old(regcode), old(regsize), |set_| + 1) && Wrote(old(regcode), set_ + [NUL])
    {
      ghost var before, p0, size := code[..], regcode, regsize;
      ghost var whole := ParseSet(exp, regparse);
      ghost var acc: seq<byte> := [];
      if At(exp, regparse) == RBRACK || At(exp, regparse) == MINUS {
        acc := [exp[regparse]];
        ParseClassExtends(exp, regparse + 1, acc);
        RegByte(exp[regparse], before, p0, size, []);
        assert [] + [exp[regparse]] == acc;
        regparse := regparse + 1;
      }
      while At(exp, regparse) != NUL && At(exp, regparse) != RBRACK
        invariant 0 < regparse <= |exp| && NulFree(acc)
        invariant whole == ParseClass(exp, regparse, acc)
        invariant Put(before, p0, size, |acc|) && Wrote(p0, acc) && ClassRoom(acc)
        decreases |exp| - regparse
      {
        hide ParseClass, Put, Wrote, ClassRoom;
        error, acc := RegMember(before, p0, size, acc);
        if error.Some? {
          return;
        }
      }
      if At(exp, regparse) != RBRACK {
        return Some(UnmatchedBracket);
      }
      RegByte(NUL, before, p0, size, acc);
      regparse := regparse + 1;
      error := None;
    }

    // ----- Pieces -----

    /** The piece stands at `ret`, which is `p`, and leads nowhere yet. */
    ghost predicate PieceAt(ret: nat, p: nat, x: Piece)
      reads this, code
    {
      ret == (if emitting then p else DUMMY) && (emitting ==> Laid(code[..], p, x, NULL) == true)
    }

    /** A leaf whose operand is the `n` characters from here, or none. */
    method RegText(n: nat)
      requires NulFree(exp) && regparse + n <= |exp| && Room(n + 1)
      modifies this`regparse, this`regcode, this`regsize, code
      ensures regparse == old(regparse) + n
      ensures Put(old(code[..]), old(regcode), old(regsize), n + 1)
      ensures Wrote(old(regcode), exp[old(regparse)..regparse] + [NUL])
    {
      ghost var before, p0, size, from := code[..], regcode, regsize, regparse;
      var len := n;
      while len > 0
        invariant 0 <= len <= n && regparse == from + n - len
        invariant Put(before, p0, size, n - len) && Wrote(p0, exp[from..regparse])
      {
        RegByte(exp[regparse], before, p0, size, exp[from..regparse]);
        assert exp[from..regparse] + [exp[regparse]] == exp[from..regparse + 1];
        regparse := regparse + 1;
        len := len - 1;
      }
      RegByte(NUL, before, p0, size, exp[from..regparse]);
    }

    /** The piece `y` ends where the code does. */
    ghost predicate LastIs(ret: nat, y: Piece)
      reads this, code
    {
      emitting ==> 0 < ret && ret + Size(y) == regcode <= code.Length && Laid(code[..], ret, y, NULL) == true
    }

    /** While the nodes around a repeated piece are written: the piece at `at`, and the nodes, from `lo` to the end. */
    ghost predicate Around(lo: nat, at: nat, y: Piece, k: int, ns: seq<Fact>)
      reads this, code
    {
      emitting ==>
        Parts(code[..], at, y, k, ns) == true && Tidy(at, y, ns, lo, regcode) && k >= 0 && regcode <= code.Length <= LIMIT
    }

    /** `n` bytes more, and nothing changed before `lo`. */
    ghost predicate Grew(before: seq<byte>, p: nat, size: nat, n: nat, lo: nat)
      reads this, code
    {
      if emitting then regcode == p + n <= code.Length && regsize == size && Same(before, code[..], 0, lo) && |before| == code.Length
      else regcode == p && regsize == size + n && code[..] == before
    }

    /** A node with the operand in front of which it goes. */
    method InsertAround(op: byte, ret: nat, ghost y: Piece)
      requires LastIs(ret, y) && Room(3)
      modifies this`regcode, this`regsize, code
      ensures Grew(old(code[..]), old(regcode), old(regsize), 3, ret)
      ensures Around(ret, ret + 3, y, NULL, [N(ret, op, NULL)])
    {
      hide Laid, Node, Parts, Size;
      if emitting { InsertPart(code[..], ret, y, op); }
      RegInsert(op, ret);
    }

    /** A node behind the others. */
    method NodeAround(op: byte, ghost lo: nat, ghost at: nat, ghost y: Piece, ghost k: int,
                      ghost ns: seq<Fact>, ghost ns': seq<Fact>)
      returns (ret: nat)
      requires Around(lo, at, y, k, ns) && Room(3)
      requires emitting ==> ns' == ns + [N(regcode, op, NULL)]
      modifies this`regcode, this`regsize, code
      ensures ret == if emitting then old(regcode) else DUMMY
      ensures Grew(old(code[..]), old(regcode), old(regsize), 3, lo)
      ensures Around(lo, at, y, k, ns')
    {
      hide Parts, Node;
      if emitting { StampParts(code[..], at, y, k, ns, lo, regcode, op); }
      ret := RegNode(op);
    }

    /** Link the `i`-th node, to which the links from `p` lead. */
    method LinkAround(p: nat, val: nat, ghost lo: nat, ghost at: nat, ghost y: Piece, ghost k: int,
                      ghost ns: seq<Fact>, ghost i: nat, ghost ns': seq<Fact>)
      requires Around(lo, at, y, k, ns) && i < |ns|
      requires emitting ==> MayLink(ns[i], val) && val <= regcode && ns' == ns[i := ns[i].(k := val)]
      requires emitting && EndsAt(code[..], ns[i].p, ns[i].p) ==> EndsAt(code[..], p, ns[i].p)
      modifies code
      ensures Grew(old(code[..]), regcode, regsize, 0, lo) && Around(lo, at, y, k, ns')
    {
      hide Parts, Node, EndsAt;
      if emitting {
        assert Within(at, y, ns[i], lo, regcode);
        LinkPart(code[..], at, y, k, ns, lo, regcode, i, val);
      }
      RegTail(p, val, ns[i].p);
    }

    /** Link the piece, at the operand of the choice node at `p`. */
    method LinkOperand(p: nat, val: nat, ghost lo: nat, ghost y: Piece, ghost ns: seq<Fact>, ghost i: nat)
      requires Around(lo, p + 3, y, NULL, ns) && i < |ns|
      requires emitting ==> ns[i].p == p && ns[i].op == BRANCH && p + 3 + Size(y) <= val <= regcode
      modifies code
      ensures Grew(old(code[..]), regcode, regsize, 0, lo)
      ensures Around(lo, p + 3, y, val, ns)
    {
      hide Parts, Node, EndsAt;
      if emitting {
        NodeOf(code[..], p + 3, y, NULL, ns, i);
        LinkTail(code[..], p + 3, y, ns, lo, regcode, val);
      }
      RegOpTail(p, val, Tail(p + 3, y));
    }

    /** Link the piece itself. */
    method LinkPieceAround(at: nat, val: nat, ghost lo: nat, ghost y: Piece, ghost ns: seq<Fact>)
      requires Around(lo, at, y, NULL, ns)
      requires emitting ==> at + Size(y) <= val <= regcode
      modifies code
      ensures Grew(old(code[..]), regcode, regsize, 0, lo) && Around(lo, at, y, val, ns)
    {
      hide Parts, Node, EndsAt;
      if emitting { LinkTail(code[..], at, y, ns, lo, regcode, val); }
      RegTail(at, val, Tail(at, y));
    }

    /** `x*` as a choice between `x` and back to the choice, or nothing. */
    method MakeStar(ret: nat, ghost y: Piece)
      requires LastIs(ret, y) && !Simple(y) && Room(12)
      modifies this`regcode, this`regsize, code
      ensures Grew(old(code[..]), old(regcode), old(regsize), 12, ret)
      ensures emitting ==> LaidStar(code[..], ret, y, NULL) == true
    {
      hide Parts, Laid, Node, EndsAt, Tidy, LaidStar;
      ghost var at, b := ret + 3, ret + 3 + Size(y);
      ghost var n0, back0, back1 := N(ret, BRANCH, NULL), N(b, BACK, NULL), N(b, BACK, ret);
      InsertAround(BRANCH, ret, y);
      var back := NodeAround(BACK, ret, at, y, NULL, [n0], [n0, back0]);
      LinkOperand(ret, back, ret, y, [n0, back0], 0);
      LoopBack(ret, y);
      ghost var n1, other0 := N(ret, BRANCH, b + 3), N(b + 3, BRANCH, NULL);
      var other := NodeAround(BRANCH, ret, at, y, b, [n0, back1], [n0, back1, other0]);
      LinkAround(ret, other, ret, at, y, b, [n0, back1, other0], 0, [n1, back1, other0]);
      StarEnd(ret, y);
    }

    /** The end of the choice, and the choices' link to it. */
    method StarEnd(ret: nat, ghost y: Piece)
      requires var b := ret + 3 + Size(y);
        Around(ret, ret + 3, y, b, [N(ret, BRANCH, b + 3), N(b, BACK, ret), N(b + 3, BRANCH, NULL)])
      requires (emitting ==> regcode == ret + Size(y) + 9) && !Simple(y) && Room(3)
      modifies this`regcode, this`regsize, code
      ensures Grew(old(code[..]), old(regcode), old(regsize), 3, ret)
      ensures emitting ==> LaidStar(code[..], ret, y, NULL) == true
    {
      hide Parts, Laid, Node, EndsAt, Tidy, LaidStar;
      ghost var at, b := ret + 3, ret + 3 + Size(y);
      ghost var n1, back1 := N(ret, BRANCH, b + 3), N(b, BACK, ret);
      ghost var other0, other1, end := N(b + 3, BRANCH, NULL), N(b + 3, BRANCH, b + 6), N(b + 6, NOTHING, NULL);
      var nothing := NodeAround(NOTHING, ret, at, y, b, [n1, back1, other0], [n1, back1, other0, end]);
      if emitting { ByWay(code[..], at, y, b, [n1, back1, other0, end], 0, b + 3); }
      LinkAround(ret, nothing, ret, at, y, b, [n1, back1, other0, end], 2, [n1, back1, other1, end]);
      if emitting { StarMade(code[..], ret, y, [n1, back1, other1, end]); }
    }

    /** Link the BACK node behind the operand back to the choice, by way of the operand. */
    method LoopBack(ret: nat, ghost y: Piece)
      requires var b := ret + 3 + Size(y); Around(ret, ret + 3, y, b, [N(ret, BRANCH, NULL), N(b, BACK, NULL)])
      modifies code
      ensures Grew(old(code[..]), regcode, regsize, 0, ret)
      ensures var b := ret + 3 + Size(y); Around(ret, ret + 3, y, b, [N(ret, BRANCH, NULL), N(b, BACK, ret)])
    {
      hide Parts, Node, EndsAt;
      ghost var b := ret + 3 + Size(y);
      ghost var ns := [N(ret, BRANCH, NULL), N(b, BACK, NULL)];
      if emitting {
        NodeOf(code[..], ret + 3, y, b, ns, 0);
        assert Within(ret + 3, y, ns[1], ret, regcode);
        LinkPart(code[..], ret + 3, y, b, ns, ret, regcode, 1, ret);
        TailEnds(code[..], ret + 3, y, ns, b, b);
      }
      RegOpTail(ret, ret, b);
      assert ns[1 := N(b, BACK, ret)] == [N(ret, BRANCH, NULL), N(b, BACK, ret)];
    }

    /** `x+` as `x` and then a choice between back to `x`, or nothing. */
    method MakePlus(ret: nat, ghost y: Piece)
      requires LastIs(ret, y) && !Simple(y) && Room(12)
      modifies this`regcode, this`regsize, code
      ensures Grew(old(code[..]), old(regcode), old(regsize), 12, ret)
      ensures emitting ==> LaidPlus(code[..], ret, y, NULL) == true
    {
      hide Parts, Laid, Node, EndsAt, LaidPlus, Tidy, Leads, Size;
      ghost var b := ret + Size(y);
      ghost var next0, next1 := N(b, BRANCH, NULL), N(b, BRANCH, b + 6);
      ghost var back0, back1 := N(b + 3, BACK, NULL), N(b + 3, BACK, ret);
      ghost var other0 := N(b + 6, BRANCH, NULL);
      if emitting { NoParts(code[..], ret, y); }
      var next := NodeAround(BRANCH, ret, ret, y, NULL, [], [next0]);
      LinkPieceAround(ret, next, ret, y, [next0]);
      var back := NodeAround(BACK, ret, ret, y, b, [next0], [next0, back0]);
      LinkAround(back, ret, ret, ret, y, b, [next0, back0], 1, [next0, back1]);
      var other := NodeAround(BRANCH, ret, ret, y, b, [next0, back1], [next0, back1, other0]);
      LinkAround(next, other, ret, ret, y, b, [next0, back1, other0], 0, [next1, back1, other0]);
      PlusEnd(ret, y);
    }

    /** The end of the choice, and the choices' link to it by way of `x`. */
    method PlusEnd(ret: nat, ghost y: Piece)
      requires var b := ret + Size(y);
        Around(ret, ret, y, b, [N(b, BRANCH, b + 6), N(b + 3, BACK, ret), N(b + 6, BRANCH, NULL)])
      requires (emitting ==> regcode == ret + Size(y) + 9) && !Simple(y) && Room(3)
      modifies this`regcode, this`regsize, code
      ensures Grew(old(code[..]), old(regcode), old(regsize), 3, ret)
      ensures emitting ==> LaidPlus(code[..], ret, y, NULL) == true
    {
      hide Parts, Laid, Node, EndsAt, LaidPlus, Tidy, Leads, Size;
      ghost var b := ret + Size(y);
      ghost var next1, back1 := N(b, BRANCH, b + 6), N(b + 3, BACK, ret);
      ghost var other0, other1, end := N(b + 6, BRANCH, NULL), N(b + 6, BRANCH, b + 9), N(b + 9, NOTHING, NULL);
      ghost var ns := [next1, back1, other0, end];
      var nothing := NodeAround(NOTHING, ret, ret, y, b, [next1, back1, other0], ns);
      if emitting {
        ByWay(code[..], ret, y, b, ns, 0, b + 6);
        if EndsAt(code[..], b + 6, b + 6) { TailEnds(code[..], ret, y, ns, b, b + 6); }
      }
      LinkAround(ret, nothing, ret, ret, y, b, ns, 2, [next1, back1, other1, end]);
      if emitting { PlusMade(code[..], ret, y, [next1, back1, other1, end]); }
    }

    /** `x?` as a choice between `x` and nothing. */
    method MakeOpt(ret: nat, ghost y: Piece)
      requires LastIs(ret, y) && Room(9)
      modifies this`regcode, this`regsize, code
      ensures Grew(old(code[..]), old(regcode), old(regsize), 9, ret)
      ensures emitting ==> LaidOpt(code[..], ret, y, NULL) == true
    {
      hide Parts, Laid, Node, EndsAt, LaidOpt, Tidy;
      ghost var at, b := ret + 3, ret + 3 + Size(y);
      ghost var n0, n1, other0, other1 := N(ret, BRANCH, NULL), N(ret, BRANCH, b), N(b, BRANCH, NULL), N(b, BRANCH, b + 3);
      ghost var end := N(b + 3, NOTHING, NULL);
      InsertAround(BRANCH, ret, y);
      var other := NodeAround(BRANCH, ret, at, y, NULL, [n0], [n0, other0]);
      LinkAround(ret, other, ret, at, y, NULL, [n0, other0], 0, [n1, other0]);
      var next := NodeAround(NOTHING, ret, at, y, NULL, [n1, other0], [n1, other0, end]);
      if emitting { ByWay(code[..], at, y, NULL, [n1, other0, end], 0, b); }
      LinkAround(ret, next, ret, at, y, NULL, [n1, other0, end], 1, [n1, other1, end]);
      LinkOperand(ret, next, ret, y, [n1, other1, end], 0);
      if emitting { OptMade(code[..], ret, y, [n1, other1, end]); }
    }

    // ----- Reading and emitting, by the levels of the grammar -----

    ghost predicate Ready()
      reads this
    {
      NulFree(exp) && regparse <= |exp| && regnpar > 0
    }

    /** While a branch is emitted at `p`: the choice node, the pieces `done`, and the last of them at `chain`. */
    ghost predicate BranchSoFar(p: nat, done: Branch, chain: int)
      reads this, code
    {
      && (chain == -1 <==> done == Empty)
      && (emitting ==>
            && 0 < p && regcode == p + 3 + (if done.Then? then BranchSize(done) else 0) <= code.Length <= LIMIT
            && Node(code[..], p, BRANCH, NULL)
            && (done.Then? ==> LaidBranch(code[..], p + 3, done, NULL) == true && chain == LastAt(p + 3, done)))
    }

    /** Hook a piece that stands at the end to the pieces before it. */
    method AddPiece(chain: int, latest: nat, ghost p: nat, ghost done: Branch, ghost x: Piece)
      requires chain >= -1 && (chain == -1 <==> done == Empty)
      requires emitting ==>
        && 0 < p && p + 3 + (if done.Then? then BranchSize(done) else 0) == latest && regcode == latest + Size(x) <= code.Length <= LIMIT
        && Node(code[..], p, BRANCH, NULL) && Laid(code[..], latest, x, NULL) == true
        && (done.Then? ==> LaidBranch(code[..], p + 3, done, NULL) == true && chain == LastAt(p + 3, done))
      requires !emitting ==> latest == DUMMY
      modifies code
      ensures Grew(old(code[..]), regcode, regsize, 0, p) && BranchSoFar(p, Join(done, Then(x, Empty)), latest)
    {
      hide Laid, LaidBranch, Node, Leads, LastAt, BranchTail;
      if chain != -1 {
        ghost var t := BranchTail(p + 3, done);
        if emitting {
          PieceAdded(code[..], p + 3, done, x);
          LeadsEnds(code[..], LastAt(p + 3, done), t);
          OpOf(code[..], p, BRANCH, NULL);
          KeepNode(code[..], Linked(code[..], t, latest - t), p, BRANCH, NULL);
          JoinSize(done, Then(x, Empty));
        }
        RegTail(chain, latest, t);
      } else {
        if emitting { OnePiece(code[..], p + 3, x); }
      }
    }

    /** What is to be emitted for a piece, and that it fits. */
    ghost predicate PieceRoom(r: Parsed<Piece>)
      reads this
    {
      emitting ==> r.Parsed? && Room(Size(r.it))
    }

    /** The reply for what is read as `r`, and what was emitted since `before`. */
    ghost predicate PieceDone(r: Parsed<Piece>, reply: Reply, flags: Flags, before: seq<byte>, p: nat, size: nat)
      reads this, code
    {
      match r
      case Bad(m) => reply == Refused(m)
      case Parsed(x, q, n) =>
        && reply.Placed? && regparse == q && regnpar == n && flags == FlagsOf(x)
        && Grew(before, p, size, Size(x), p) && PieceAt(reply.ret, p, x)
    }

    /** A leaf without an operand. */
    method RegLeaf(op: byte, ghost x: Piece) returns (ret: nat)
      requires IsLeaf(x) && LeafSize(x) == 3 && op == LeafOp(x) && Room(3)
      modifies this`regcode, this`regsize, code
      ensures Grew(old(code[..]), old(regcode), old(regsize), 3, old(regcode)) && PieceAt(ret, old(regcode), x)
    {
      ret := RegNode(op);
      if emitting { LeafWritten(code[..], code[..], ret, x, []); }
    }

    /** A bracketed class, from behind the bracket. */
    method RegBracket() returns (reply: Reply)
      requires NulFree(exp) && 0 < regparse <= |exp|
      requires emitting ==> SetAt(exp, regparse).Parsed? && Room(4 + |SetAt(exp, regparse).it|)
      modifies this`regparse, this`regcode, this`regsize, code
      ensures match SetAt(exp, old(regparse))
        case Bad(m) => reply == Refused(m)
        case Parsed(set_, q, _) =>
          && reply.Placed? && regparse == q && Grew(old(code[..]), old(regcode), old(regsize), 4 + |set_|, old(regcode))
          && PieceAt(reply.ret, old(regcode), if At(exp, old(regparse)) == HAT then NoneOf(set_) else OneOf(set_))
    {
      ghost var but, p := At(exp, regparse) == HAT, regcode;
      ghost var r := SetAt(exp, regparse);
      var ret;
      if At(exp, regparse) == HAT {
        ret := RegNode(ANYBUT);
        regparse := regparse + 1;
      } else {
        ret := RegNode(ANYOF);
      }
      ghost var mid := code[..];
      var error := RegClass();
      if error.Some? {
        return Refused(error.error);
      }
      if emitting { LeafWritten(mid, code[..], p, if but then NoneOf(r.it) else OneOf(r.it), r.it); }
      reply := Placed(ret);
    }

    /** A literal: the next `n` characters. */
    method RegLiteral(n: nat) returns (ret: nat)
      requires NulFree(exp) && 0 < n && regparse + n <= |exp| && Room(4 + n)
      modifies this`regparse, this`regcode, this`regsize, code
      ensures regparse == old(regparse) + n
      ensures Grew(old(code[..]), old(regcode), old(regsize), 4 + n, old(regcode))
      ensures PieceAt(ret, old(regcode), Text(exp[old(regparse)..regparse]))
    {
      ghost var p, from := regcode, regparse;
      ret := RegNode(EXACTLY);
      ghost var mid := code[..];
      RegText(n);
      if emitting { LeafWritten(mid, code[..], p, Text(exp[from..regparse]), exp[from..regparse]); }
    }

    /** A branch stands at the end, from `p`. */
    ghost predicate BranchAtEnd(p: nat, b: Branch)
      reads this, code
    {
      emitting ==>
        && 0 < p && regcode == p + 3 + BranchSize(b) <= code.Length <= LIMIT
        && Node(code[..], p, BRANCH, NULL) && LaidBranch(code[..], p + 3, b, NULL) == true
    }

    /** The node in front of the alternatives, if there is one, leads to them. */
    ghost predicate Opened(ret: nat, open: bool, op: byte, p: nat)
      reads this, code
    {
      emitting ==> 0 < ret && if open then ret + 3 == p && op != BACK && Node(code[..], ret, op, p) else ret == p
    }

    /** Alternatives that are linked to each other, at the end. */
    ghost predicate ChoicesSoFar(p: nat, a: Alts)
      reads this, code
    {
      emitting ==> 0 < p && regcode == p + AltsSize(a) <= code.Length <= LIMIT && LaidAlts(code[..], p, a, NULL, 0, 1) == true
    }

    /** The first alternative, linked to from the node in front. */
    method FirstBranch(ret: nat, br: nat, open: bool, ghost op: byte, ghost p: nat, ghost b: Branch)
      requires BranchAtEnd(p, b) && (emitting ==> br == p)
      requires emitting && open ==> 0 < ret && ret + 3 == p && op != BACK && Node(code[..], ret, op, NULL)
      requires emitting && !open ==> ret == p
      modifies code
      ensures ChoicesSoFar(p, One(b)) && Opened(ret, open, op, p)
      ensures Grew(old(code[..]), regcode, regsize, 0, if emitting then ret else 0)
    {
      hide LaidAlts, LaidBranch, Node, EndsAt, Leads, LastChoice, Linked, Grown;
      if emitting {
        AltsTogether(code[..], p, One(b), NULL, 0, 1);
        if open {
          OpOf(code[..], ret, op, NULL);
          NodeEnds(code[..], ret, op);
          LinkNode(code[..], ret, op, p);
          KeepAlts(code[..], Linked(code[..], ret, 3), p, One(b), NULL, 0, 1);
        }
      }
      if open {
        RegTail(ret, br, ret);
      }
    }

    /** One alternative more. */
    method NextBranch(ret: nat, br: nat, open: bool, ghost op: byte, ghost p: nat, ghost a: Alts, ghost b: Branch)
      requires BranchAtEnd(p + AltsSize(a), b) && Opened(ret, open, op, p)
      requires emitting ==> 0 < p && br == p + AltsSize(a) && LaidAlts(code[..], p, a, NULL, 0, 1) == true
      modifies code
      ensures ChoicesSoFar(p, JoinAlts(a, One(b))) && Opened(ret, open, op, p)
      ensures Grew(old(code[..]), regcode, regsize, 0, if emitting then ret else 0)
    {
      hide LaidAlts, LaidBranch, Node, Leads, EndsAt, LastChoice;
      ghost var t := LastChoice(p, a);
      JoinAltsSize(a, One(b));
      if emitting {
        AltAdded(code[..], p, a, b);
        FromOpen(code[..], ret, op, p, t);
        if open {
          OpOf(code[..], ret, op, p);
          KeepNode(code[..], Linked(code[..], t, br - t), ret, op, p);
        }
      }
      RegTail(ret, br, t);
    }

    /** The node behind the alternatives, and the last choice's link to it. */
    method EndChoices(ret: nat, ender: byte, open: bool, ghost op: byte, ghost p: nat, ghost a: Alts) returns (e: nat)
      requires ChoicesSoFar(p, a) && Opened(ret, open, op, p) && Room(3)
      modifies this`regcode, this`regsize, code
      ensures Grew(old(code[..]), old(regcode), old(regsize), 3, if emitting then ret else 0)
      ensures Opened(ret, open, op, p) && e == if emitting then old(regcode) else DUMMY
      ensures emitting ==> e == p + AltsSize(a) && LaidAlts(code[..], p, a, e, 0, e) == true && Node(code[..], e, ender, NULL)
    {
      hide LaidAlts, LaidBranch, Node, Leads, EndsAt, LastChoice;
      ghost var c0, q, t := code[..], regcode, LastChoice(p, a);
      e := RegNode(ender);
      if emitting {
        KeepAlts(c0, code[..], p, a, NULL, 0, 1);
        LinkAlts(code[..], p, a, q, 1);
        if open {
          OpOf(c0, ret, op, p);
          KeepNode(c0, code[..], ret, op, p);
        }
        FromOpen(code[..], ret, op, p, t);
        ghost var to := Linked(code[..], t, q - t);
        AnyEnd(to, p, a, q, 1, q);
        KeepNode(code[..], to, q, ender, NULL);
        if open { KeepNode(code[..], to, ret, op, p); }
      }
      RegTail(ret, e, t);
    }

    /** Make every alternative go on at the node behind them all. */
    method HookBranches(ret: nat, e: nat, open: bool, ghost op: byte, ghost ender: byte, ghost p: nat, ghost a: Alts)
      requires Opened(ret, open, op, p) && (!emitting ==> ret == DUMMY)
      requires emitting ==>
        && 0 < p && e == p + AltsSize(a) && regcode == e + 3 <= code.Length <= LIMIT && ender != BRANCH && ender != BACK && op != BRANCH
        && LaidAlts(code[..], p, a, e, 0, e) == true && Node(code[..], e, ender, NULL)
      modifies code
      ensures Grew(old(code[..]), regcode, regsize, 0, if emitting then ret else 0) && Opened(ret, open, op, p)
      ensures emitting ==> LaidAlts(code[..], p, a, e, Count(a), e) == true && Node(code[..], e, ender, NULL)
    {
      hide LaidAlts, LaidBranch, Node, EndsAt, HookAt, ChoiceAt, Next;
      ghost var before, j := code[..], if open then -1 else 0;
      if emitting { ChoiceNext(p, a, 0); }
      var br: int := ret;
      while br != NULL
        invariant -1 <= j <= Count(a) && (j < 0 ==> open)
        invariant emitting ==> LaidAlts(code[..], p, a, e, if j < 0 then 0 else j, e) == true && Node(code[..], e, ender, NULL)
        invariant Opened(ret, open, op, p) && Grew(before, regcode, regsize, 0, if emitting then ret else 0)
        invariant emitting && br != NULL ==> br == if j < 0 then ret else if j < Count(a) then ChoiceAt(p, a, j) else e
        invariant emitting && br == NULL ==> j == Count(a)
        invariant !emitting ==> br == NULL
        decreases Count(a) - j, br != NULL
      {
        ghost var t := if 0 <= j < Count(a) then HookAt(p, a, j) else 0;
        ghost var c := code[..];
        if j < 0 {
          OpOf(c, ret, op, p);
        } else if j < Count(a) {
          HookOne(c, ret, open, op, p, a, e, ender, j, t);
        } else {
          OpOf(c, e, ender, NULL);
        }
        RegOpTail(br, e, t);
        if j < 0 {
          NextIs(code[..], ret, op, p);
        } else if j < Count(a) {
          ChoiceStays(c, code[..], p, a, e, j, t);
        } else {
          NextIs(code[..], e, ender, NULL);
        }
        br := RegNext(br);
        if j < Count(a) { j := j + 1; }
      }
    }

    /** How much of a branch stands behind its choice node. */
    static ghost function Taken(done: Branch): nat {
      if done.Then? then BranchSize(done) else 0
    }

    /** The next piece of a branch, hooked to the others. */
    method NextPiece(chain: int, ghost p: nat, ghost done: Branch) returns (reply: Reply, flags: Flags, ghost x: Piece)
      requires Ready() && !EndsBranch(At(exp, regparse)) && BranchSoFar(p, done, chain) && chain >= -1
      requires emitting ==>
        var r := Behind(done, ParseBranch(exp, regparse, regnpar));
        r.Parsed? && p + 3 + BranchSize(r.it) <= code.Length <= LIMIT
      modifies this`regparse, this`regnpar, this`regcode, this`regsize, code
      ensures reply.Refused? ==> ParseBranch(exp, old(regparse), old(regnpar)) == Bad(reply.error)
      ensures reply.Placed? ==>
        var done' := Join(done, Then(x, Empty));
        && Ready() && old(regparse) < regparse && flags == FlagsOf(x)
        && Behind(done', ParseBranch(exp, regparse, regnpar)) == Behind(done, ParseBranch(exp, old(regparse), old(regnpar)))
        && BranchSoFar(p, done', reply.ret) && Taken(done') == Taken(done) + Size(x)
        && Grew(old(code[..]), old(regcode), old(regsize), Size(x), p)
      decreases |exp| - regparse, 2, 0
    {
      hide Laid, LaidBranch, Node, ParseBranch, ParsePiece, HasWidth;
      ghost var r, mid := ParsePiece(exp, regparse, regnpar), code[..];
      BranchNeedsPiece(exp, regparse, regnpar);
      if r.Parsed? {
        BehindNext(done, r.it, exp, regparse, regnpar, r.pos, r.npar);
        x := r.it;
      } else {
        x := Bol;
      }
      reply, flags := RegPiece();
      if reply.Refused? {
        return;
      }
      if emitting {
        if done.Then? { KeepBranch(mid, code[..], p + 3, done, NULL); }
        OpOf(mid, p, BRANCH, NULL);
        KeepNode(mid, code[..], p, BRANCH, NULL);
      }
      if done.Then? { JoinSize(done, Then(x, Empty)); }
      AddPiece(chain, reply.ret, p, done, x);
    }

    /** One alternative of an expression. */
    method RegBranch() returns (reply: Reply, hasWidth: bool, spStart: bool)
      requires Ready()
      requires emitting ==> var r := ParseBranch(exp, regparse, regnpar); r.Parsed? && Room(3 + BranchSize(r.it))
      modifies this`regparse, this`regnpar, this`regcode, this`regsize, code
      ensures BranchDone(ParseBranch(exp, old(regparse), old(regnpar)), reply, hasWidth, spStart, old(code[..]), old(regcode), old(regsize))
      decreases |exp| - regparse, 3, 0
    {
      hide Laid, LaidBranch, Node;
      ghost var before, p, size := code[..], regcode, regsize;
      ghost var whole := ParseBranch(exp, regparse, regnpar);
      ghost var done := Empty;
      hasWidth, spStart := false, false;
      var ret := RegNode(BRANCH);
      var chain: int := -1;
      while !EndsBranch(At(exp, regparse))
        invariant Ready() && old(regparse) <= regparse && chain >= -1
        invariant whole == Behind(done, ParseBranch(exp, regparse, regnpar))
        invariant emitting ==> whole.Parsed? && p + 3 + BranchSize(whole.it) <= code.Length <= LIMIT
        invariant BranchSoFar(p, done, chain) && Grew(before, p, size, 3 + Taken(done), p)
        invariant hasWidth == BranchHasWidth(done) && spStart == BranchSpStart(done)
        decreases |exp| - regparse
      {
        hide ParseBranch, Behind, Join, BranchSoFar, BranchHasWidth, BranchSpStart;
        var latest, flags, x := NextPiece(chain, p, done);
        if latest.Refused? {
          BehindBad(done, latest.error);
          return latest, hasWidth, spStart;
        }
        JoinWidth(done, x);
        hasWidth := hasWidth || flags.hasWidth;
        if chain == -1 {
          spStart := flags.spStart;
        }
        chain := latest.ret;
        done := Join(done, Then(x, Empty));
      }
      JoinEmpty(done);
      if chain == -1 {
        ghost var mid := code[..];
        var nothing := RegNode(NOTHING);
        if emitting {
          EmptyBranch(code[..], p + 3);
          OpOf(mid, p, BRANCH, NULL);
          KeepNode(mid, code[..], p, BRANCH, NULL);
        }
      }
      reply := Placed(ret);
    }

    ghost predicate BranchDone(r: Parsed<Branch>, reply: Reply, hasWidth: bool, spStart: bool, before: seq<byte>, p: nat, size: nat)
      reads this, code
    {
      match r
      case Bad(m) => reply == Refused(m)
      case Parsed(b, q, n) =>
        && reply == Placed(if emitting then p else DUMMY) && regparse == q && regnpar == n
        && hasWidth == BranchHasWidth(b) && spStart == BranchSpStart(b)
        && Grew(before, p, size, 3 + BranchSize(b), p)
        && (emitting ==> Node(code[..], p, BRANCH, NULL) && LaidBranch(code[..], p + 3, b, NULL) == true)
    }

    /** One alternative more, behind a bar. */
    method NextChoice(ret: nat, open: bool, ghost op: byte, ghost p: nat, ghost a: Alts)
      returns (reply: Reply, hasWidth: bool, spStart: bool, ghost a': Alts)
      requires Ready() && At(exp, regparse) == BAR && ChoicesSoFar(p, a) && Opened(ret, open, op, p)
      requires !emitting ==> ret == DUMMY
      requires emitting ==> var r := AltsFrom(a, exp, regparse, regnpar); r.Parsed? && p + AltsSize(r.it) <= code.Length <= LIMIT
      modifies this`regparse, this`regnpar, this`regcode, this`regsize, code
      ensures reply.Refused? ==> AltsFrom(a, exp, old(regparse), old(regnpar)) == Bad(reply.error)
      ensures reply.Placed? ==>
        && Ready() && old(regparse) < regparse && EndsBranch(At(exp, regparse))
        && AltsFrom(a', exp, regparse, regnpar) == AltsFrom(a, exp, old(regparse), old(regnpar))
        && ChoicesSoFar(p, a') && Opened(ret, open, op, p)
        && AltsHaveWidth(a') == (AltsHaveWidth(a) && hasWidth) && AltsSpStart(a') == (AltsSpStart(a) || spStart)
        && AltsSize(a') > AltsSize(a)
        && Grew(old(code[..]), old(regcode), old(regsize), AltsSize(a') - AltsSize(a), if emitting then ret else 0)
      decreases |exp| - regparse, 4, 0
    {
      hide LaidAlts, LaidBranch, Node, ParseAlts, ParseBranch, AltsFrom;
      ghost var mid, q := code[..], regcode;
      NextAlt(a, exp, regparse, regnpar);
      regparse := regparse + 1;
      ghost var r := ParseBranch(exp, regparse, regnpar);
      reply, hasWidth, spStart := RegBranch();
      if reply.Refused? {
        a' := a;
        return;
      }
      a' := JoinAlts(a, One(r.it));
      JoinAltsWidth(a, r.it);
      if emitting {
        KeepAlts(mid, code[..], p, a, NULL, 0, 1);
        if open {
          OpOf(mid, ret, op, p);
          KeepNode(mid, code[..], ret, op, p);
        }
      }
      NextBranch(ret, reply.ret, open, op, p, a, r.it);
    }

    /** The first alternative, behind the opening node if there is one. */
    method FirstChoice(open: bool, opener: nat, ghost op: byte)
      returns (reply: Reply, ret: nat, hasWidth: bool, spStart: bool, ghost a: Alts)
      requires Ready() && op != BACK && (!emitting ==> opener == DUMMY)
      requires emitting ==> var r := ParseAlts(exp, regparse, regnpar); r.Parsed? && Room(AltsSize(r.it) + 3)
      requires emitting && open ==> 0 < opener && opener + 3 == regcode && Node(code[..], opener, op, NULL)
      modifies this`regparse, this`regnpar, this`regcode, this`regsize, code
      ensures reply.Refused? ==> ParseAlts(exp, old(regparse), old(regnpar)) == Bad(reply.error)
      ensures reply.Placed? ==>
        && ret == (if !emitting then DUMMY else if open then opener else old(regcode))
        && Ready() && old(regparse) <= regparse && EndsBranch(At(exp, regparse))
        && AltsFrom(a, exp, regparse, regnpar) == ParseAlts(exp, old(regparse), old(regnpar))
        && ChoicesSoFar(old(regcode), a) && Opened(ret, open, op, old(regcode))
        && hasWidth == AltsHaveWidth(a) && spStart == AltsSpStart(a)
        && Grew(old(code[..]), old(regcode), old(regsize), AltsSize(a), if emitting then ret else 0)
      decreases |exp| - regparse, 4, 0
    {
      hide LaidAlts, LaidBranch, Node, ParseAlts, ParseBranch, AltsFrom, AltsHaveWidth, AltsSpStart;
      ghost var before, p := code[..], regcode;
      FirstAlt(exp, regparse, regnpar);
      ghost var r := ParseBranch(exp, regparse, regnpar);
      reply, hasWidth, spStart := RegBranch();
      if reply.Refused? {
        ret, a := DUMMY, One(Empty);
        return;
      }
      ret := if open then opener else reply.ret;
      if emitting && open {
        OpOf(before, opener, op, NULL);
        KeepNode(before, code[..], opener, op, NULL);
      }
      a := One(r.it);
      OneWidth(r.it);
      FirstBranch(ret, reply.ret, open, op, p, r.it);
    }

    /** All alternatives, and the node behind them. */
    method RegChoices(open: bool, opener: nat, ghost op: byte, ender: byte) returns (reply: Reply, hasWidth: bool, spStart: bool)
      requires Ready() && ender != BRANCH && ender != BACK && op != BRANCH && op != BACK
      requires emitting ==> var r := ParseAlts(exp, regparse, regnpar); r.Parsed? && Room(AltsSize(r.it) + 3)
      requires emitting && open ==> 0 < opener && opener + 3 == regcode && Node(code[..], opener, op, NULL)
      requires !emitting ==> opener == DUMMY
      modifies this`regparse, this`regnpar, this`regcode, this`regsize, code
      ensures ChoicesDone(ParseAlts(exp, old(regparse), old(regnpar)), reply, hasWidth, spStart, open, opener, op, ender,
                          old(code[..]), old(regcode), old(regsize))
      decreases |exp| - regparse, 5, 0
    {
      hide LaidAlts, LaidBranch, Node, ParseAlts, ParseBranch, AltsFrom, AltsHaveWidth, AltsSpStart;
      ghost var before, p, size := code[..], regcode, regsize;
      ghost var whole := ParseAlts(exp, regparse, regnpar);
      ghost var a;
      var ret;
      reply, ret, hasWidth, spStart, a := FirstChoice(open, opener, op);
      if reply.Refused? {
        return;
      }
      ghost var lo := if emitting then ret else 0;
      while At(exp, regparse) == BAR
        invariant Ready() && old(regparse) <= regparse && EndsBranch(At(exp, regparse))
        invariant whole == AltsFrom(a, exp, regparse, regnpar)
        invariant ChoicesSoFar(p, a) && Opened(ret, open, op, p)
        invariant Grew(before, p, size, AltsSize(a), lo)
        invariant hasWidth == AltsHaveWidth(a) && spStart == AltsSpStart(a)
        decreases |exp| - regparse
      {
        ghost var a';
        var w, sp;
        reply, w, sp, a' := NextChoice(ret, open, op, p, a);
        if reply.Refused? {
          return;
        }
        a := a';
        hasWidth, spStart := hasWidth && w, spStart || sp;
      }
      NoMoreAlts(a, exp, regparse, regnpar);
      var e := EndChoices(ret, ender, open, op, p, a);
      HookBranches(ret, e, open, op, ender, p, a);
      reply := Placed(ret);
    }

    ghost predicate ChoicesDone(r: Parsed<Alts>, reply: Reply, hasWidth: bool, spStart: bool, open: bool, opener: nat, op: byte, ender: byte,
                                before: seq<byte>, p: nat, size: nat)
      reads this, code
    {
      match r
      case Bad(m) => reply == Refused(m)
      case Parsed(a, q, n) =>
        var ret := if !emitting then DUMMY else if open then opener else p;
        && reply == Placed(ret) && regparse == q && regnpar == n
        && hasWidth == AltsHaveWidth(a) && spStart == AltsSpStart(a)
        && Grew(before, p, size, AltsSize(a) + 3, ret) && Opened(ret, open, op, p)
        && (emitting ==>
              var e := p + AltsSize(a);
              LaidAlts(code[..], p, a, e, Count(a), e) == true && Node(code[..], e, ender, NULL))
    }

    /** An expression: in brackets, from behind the opening one, or the whole pattern. */
    method RegParen() returns (reply: Reply, flags: Flags)
      requires Ready() && PieceRoom(ParseGroup(exp, regparse, regnpar))
      modifies this`regparse, this`regnpar, this`regcode, this`regsize, code
      ensures PieceDone(ParseGroup(exp, old(regparse), old(regnpar)), reply, flags, old(code[..]), old(regcode), old(regsize))
      decreases |exp| - regparse, 6, 0
    {
      hide LaidAlts, Node, ParseAlts, HasWidth, SpStart, Simple;
      flags := Flags(false, false, false);
      if regnpar >= NSUBEXP {
        return Refused(TooManyParens), flags;
      }
      ghost var before, p, size := code[..], regcode, regsize;
      var parno := regnpar;
      regnpar := regnpar + 1;
      ghost var r := ParseAlts(exp, regparse, regnpar);
      var ret := RegNode(OPEN + parno);
      var hasWidth, spStart;
      reply, hasWidth, spStart := RegChoices(true, ret, OPEN + parno, CLOSE + parno);
      if reply.Refused? {
        return;
      }
      if At(exp, regparse) != RPAREN {
        return Refused(UnmatchedParens), flags;
      }
      regparse := regparse + 1;
      flags := Flags(hasWidth, false, spStart);
      GroupFlags(parno, r.it);
      if emitting { GroupMade(code[..], p, parno, r.it); }
    }

    /** The lowest level: one atom. */
    method RegAtom() returns (reply: Reply, flags: Flags)
      requires Ready() && PieceRoom(ParseAtom(exp, regparse, regnpar))
      modifies this`regparse, this`regnpar, this`regcode, this`regsize, code
      ensures PieceDone(ParseAtom(exp, old(regparse), old(regnpar)), reply, flags, old(code[..]), old(regcode), old(regsize))
      decreases |exp| - regparse, 0, 0
    {
      hide Laid;
      flags := Flags(false, false, false);
      var c := At(exp, regparse);
      if c == HAT {
        regparse := regparse + 1;
        var ret := RegLeaf(BOL, Bol);
        reply := Placed(ret);
      } else if c == DOLLAR {
        regparse := regparse + 1;
        var ret := RegLeaf(EOL, Eol);
        reply := Placed(ret);
      } else if c == DOT {
        regparse := regparse + 1;
        var ret := RegLeaf(ANY, Dot);
        flags := Flags(true, true, false);
        reply := Placed(ret);
      } else if c == LBRACK {
        regparse := regparse + 1;
        reply := RegBracket();
        flags := Flags(true, true, false);
      } else if c == LPAREN {
        regparse := regparse + 1;
        reply, flags := RegParen();
      } else if c == NUL || c == BAR || c == RPAREN {
        reply := Refused(InternalUrp);
      } else if IsMult(c) {
        reply := Refused(RepeatsNothing);
      } else if c == BACKSLASH {
        reply, flags := RegEscape();
      } else {
        reply, flags := RegOrdinary();
      }
    }

    /** A backslash and the character it makes ordinary. */
    method RegEscape() returns (reply: Reply, flags: Flags)
      requires Ready() && At(exp, regparse) == BACKSLASH && PieceRoom(ParseAtom(exp, regparse, regnpar))
      modifies this`regparse, this`regcode, this`regsize, code
      ensures PieceDone(ParseAtom(exp, old(regparse), regnpar), reply, flags, old(code[..]), old(regcode), old(regsize))
    {
      hide Laid;
      flags := Flags(true, true, false);
      regparse := regparse + 1;
      if At(exp, regparse) == NUL {
        return Refused(TrailingBackslash), flags;
      }
      assert exp[regparse..regparse + 1] == [exp[regparse]];
      var ret := RegLiteral(1);
      reply := Placed(ret);
    }

    /** As many ordinary characters as go into one piece. */
    method RegOrdinary() returns (reply: Reply, flags: Flags)
      requires Ready() && !IsMeta(At(exp, regparse)) && At(exp, regparse) != NUL && PieceRoom(ParseAtom(exp, regparse, regnpar))
      modifies this`regparse, this`regcode, this`regsize, code
      ensures PieceDone(ParseAtom(exp, old(regparse), regnpar), reply, flags, old(code[..]), old(regcode), old(regsize))
    {
      hide Laid;
      var len := Span(exp, regparse);
      if len <= 0 {
        return Refused(InternalDisaster), Flags(false, false, false);
      }
      if len > 1 && IsMult(At(exp, regparse + len)) {
        len := len - 1;
      }
      flags := Flags(true, len == 1, false);
      var ret := RegLiteral(len);
      reply := Placed(ret);
    }

    /** A piece: an atom and perhaps a repetition operator. */
    method RegPiece() returns (reply: Reply, flags: Flags)
      requires Ready() && PieceRoom(ParsePiece(exp, regparse, regnpar))
      modifies this`regparse, this`regnpar, this`regcode, this`regsize, code
      ensures PieceDone(ParsePiece(exp, old(regparse), old(regnpar)), reply, flags, old(code[..]), old(regcode), old(regsize))
      decreases |exp| - regparse, 1, 0
    {
      hide Laid, ParseAtom, ParsePiece, HasWidth, SpStart, Simple, Size, Repeated;
      ghost var before, p, size, r := code[..], regcode, regsize, ParseAtom(exp, regparse, regnpar);
      PieceCases(exp, regparse, regnpar);
      reply, flags := RegAtom();
      if reply.Refused? {
        return;
      }
      var op := At(exp, regparse);
      if !IsMult(op) {
        return;
      }
      if !flags.hasWidth && op != QUERY {
        return Refused(OperandCouldBeEmpty), flags;
      }
      var simple := flags.simple;
      flags := if op != PLUS then Flags(false, false, true) else Flags(true, false, false);
      ApplyOperator(op, simple, reply.ret, r.it, before, p, size);
      regparse := regparse + 1;
      if IsMult(At(exp, regparse)) {
        reply := Refused(NestedRepeat);
      }
    }

    /** The operator applied to the piece just emitted. */
    method ApplyOperator(op: byte, simple: bool, ret: nat, ghost y: Piece, ghost before: seq<byte>, ghost p: nat, ghost size: nat)
      requires IsMult(op) && simple == Simple(y) && Room(Size(Repeated(op, y)) - Size(y))
      requires Grew(before, p, size, Size(y), p) && PieceAt(ret, p, y) && (emitting ==> p > 0)
      modifies this`regcode, this`regsize, code
      ensures Grew(before, p, size, Size(Repeated(op, y)), p) && PieceAt(ret, p, Repeated(op, y))
    {
      hide Laid, Size;
      Repeat(op, simple, ret, y);
    }

    method Repeat(op: byte, simple: bool, ret: nat, ghost y: Piece)
      requires IsMult(op) && simple == Simple(y) && LastIs(ret, y) && Room(Size(Repeated(op, y)) - Size(y))
      modifies this`regcode, this`regsize, code
      ensures var x := Repeated(op, y);
        && Grew(old(code[..]), old(regcode), old(regsize), Size(x) - Size(y), if emitting then ret else 0)
        && (emitting ==> Laid(code[..], ret, x, NULL) == true)
    {
      hide Laid, LaidStar, LaidPlus, LaidOpt;
      if op == STAR && simple {
        InsertAround(STARS, ret, y);
        if emitting { SimpleMade(code[..], ret, y, STARS); }
      } else if op == STAR {
        MakeStar(ret, y);
      } else if op == PLUS && simple {
        InsertAround(PLUSES, ret, y);
        if emitting { SimpleMade(code[..], ret, y, PLUSES); }
      } else if op == PLUS {
        MakePlus(ret, y);
      } else {
        MakeOpt(ret, y);
      }
      if emitting { LaidMade(code[..], ret, y); }
    }

    /** One pass over the whole pattern. */
    method Pass() returns (error: Option, spStart: bool)
      requires NulFree(exp) && regparse == 0 && regnpar == 1
      requires emitting ==> Parse(exp).Parsed? && regcode == 0 && 4 + AltsSize(Parse(exp).it) == code.Length <= LIMIT
      modifies this`regparse, this`regnpar, this`regcode, this`regsize, code
      ensures match Parse(exp)
        case Bad(m) => error == Some(m)
        case Parsed(a, _, _) =>
          && error == None && spStart == AltsSpStart(a)
          && if emitting then Program(code[..], a) && regcode == code.Length
             else regsize == old(regsize) + 4 + AltsSize(a)
    {
      hide LaidAlts, Node, ParseAlts;
      RegC(MAGIC);
      ghost var c := code[..];
      var reply, hasWidth;
      reply, hasWidth, spStart := RegChoices(false, DUMMY, END, END);
      if reply.Refused? {
        return Some(reply.error), false;
      }
      if At(exp, regparse) != NUL {
        if At(exp, regparse) == RPAREN {
          return Some(UnmatchedParens), false;
        } else {
          return Some(JunkOnEnd), false;
        }
      }
      error := None;
    }

    /** From counting to writing. */
    method StartWriting()
      requires regsize <= LIMIT
      modifies this
      ensures emitting && regparse == 0 && regnpar == 1 && regcode == 0 && fresh(code) && code.Length == old(regsize)
    {
      emitting, regparse, regnpar, regcode := true, 0, 1, 0;
      code := new byte[regsize](_ => 0);
    }
  }

  /** What the operator `op` makes of `y`. */
  function Repeated(op: byte, y: Piece): Piece {
    if op == STAR then Star(y) else if op == PLUS then Plus(y) else Opt(y)
  }

  lemma RepeatedGrows(op: byte, x: Piece)
    ensures Size(Repeated(op, x)) >= Size(x)
    ensures IsMult(op) ==>
      FlagsOf(Repeated(op, x)) == if op != PLUS then Flags(false, false, true) else Flags(true, false, false)
  {
    Smaller(x);
  }

  /** The ways in which an atom and what follows it make a piece. */
  lemma PieceCases(e: seq<byte>, p: nat, npar: nat)
    requires NulFree(e) && p <= |e| && npar > 0
    ensures match ParseAtom(e, p, npar)
      case Bad(m) => ParsePiece(e, p, npar) == Bad(m)
      case Parsed(x, q, n) =>
        var op, r := At(e, q), ParsePiece(e, p, npar);
        if !IsMult(op) then r == Parsed(x, q, n)
        else if !HasWidth(x) && op != QUERY then r == Bad(OperandCouldBeEmpty)
        else
          && Size(Repeated(op, x)) >= Size(x) && q + 1 <= |e|
          && FlagsOf(Repeated(op, x)) == (if op != PLUS then Flags(false, false, true) else Flags(true, false, false))
          && r == if IsMult(At(e, q + 1)) then Bad(NestedRepeat) else Parsed(Repeated(op, x), q + 1, n)
  {
    hide ParseAtom, HasWidth, SpStart, Simple, Size, FlagsOf;
    var r := ParseAtom(e, p, npar);
    if r.Parsed? { RepeatedGrows(At(e, r.pos), r.it); }
  }

  lemma GroupFlags(n: nat, a: Alts)
    ensures FlagsOf(Group(n, a)) == Flags(AltsHaveWidth(a), false, AltsSpStart(a))
  {
  }

  lemma EmptyBranch(code: seq<byte>, p: nat)
    requires Node(code, p, NOTHING, NULL)
    ensures LaidBranch(code, p, Empty, NULL) == true
  {
  }

  lemma OnePiece(code: seq<byte>, p: nat, x: Piece)
    requires Laid(code, p, x, NULL) == true
    ensures LaidBranch(code, p, Then(x, Empty), NULL) == true && LastAt(p, Then(x, Empty)) == p
    ensures BranchSize(Then(x, Empty)) == Size(x)
  {
    hide Laid;
  }

  /** The reader of a class only ever adds members. */
  lemma {:induction false} ParseClassExtends(e: seq<byte>, p: nat, acc: seq<byte>)
    requires NulFree(e) && NulFree(acc) && 0 < p <= |e|
    ensures var r := ParseClass(e, p, acc); r.Parsed? ==> acc <= r.it
    decreases |e| - p
  {
    if At(e, p) != NUL && At(e, p) != RBRACK {
      if At(e, p) == MINUS {
        if At(e, p + 1) == RBRACK || At(e, p + 1) == NUL {
          ParseClassExtends(e, p + 1, acc + [MINUS]);
        } else if e[p - 1] <= At(e, p + 1) {
          ParseClassExtends(e, p + 2, acc + Range(e[p - 1] as int + 1, e[p + 1]));
        }
      } else {
        ParseClassExtends(e, p + 1, acc + [e[p]]);
      }
    }
  }
}
