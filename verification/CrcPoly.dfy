/**
 What the checksum of `crc` means: polynomials over GF(2), division, and the errors the checksum
 cannot miss.
 */
module CrcPoly {
  import opened Crc

  /** A polynomial over GF(2) is the set of the exponents of its terms. */
  type Poly = set<nat>

  function Plus(a: Poly, b: Poly): Poly {
    (a - b) + (b - a)
  }

  function TimesX(a: Poly): Poly {
    set k | k in a :: k + 1
  }

  /** Multiply by `x` and add `bit`. */
  function Next(a: Poly, bit: bool): Poly {
    Plus(TimesX(a), if bit then {0} else {})
  }

  /** The polynomial with these coefficients, the highest first. */
  function PolyOf(bits: seq<bool>): Poly {
    if bits == [] then {} else Next(PolyOf(bits[..|bits| - 1]), bits[|bits| - 1])
  }

  /** The divisor. */
  const G: Poly := {16, 12, 5, 0}

  /** The product of the polynomial with coefficients `q`, the highest first, and the divisor. */
  function TimesG(q: seq<bool>): Poly {
    if q == [] then {}
    else Plus(TimesX(TimesG(q[..|q| - 1])), if q[|q| - 1] then G else {})
  }

  /** The divisor divides `p`. */
  ghost predicate Divides(p: Poly) {
    exists q :: p == TimesG(q)
  }

  ghost predicate IsRemainder(p: Poly, r: Poly) {
    (forall k :: k in r ==> k < 16) && exists q :: p == Plus(TimesG(q), r)
  }

  lemma PlusAt(a: Poly, b: Poly, k: nat)
    ensures k in Plus(a, b) <==> (k in a) != (k in b)
  {
  }

  lemma TimesXAt(a: Poly, k: nat)
    ensures k in TimesX(a) <==> k > 0 && k - 1 in a
  {
  }

  // ----- The register is a remainder -----

  /** Bit `i` of a register, the highest bit being the first. */
  function BitAt(x: bv16, i: nat): bool
    requires i < 16
  {
    match i
    case 0 => x & 0x8000 != 0
    case 1 => x & 0x4000 != 0
    case 2 => x & 0x2000 != 0
    case 3 => x & 0x1000 != 0
    case 4 => x & 0x800 != 0
    case 5 => x & 0x400 != 0
    case 6 => x & 0x200 != 0
    case 7 => x & 0x100 != 0
    case 8 => x & 0x80 != 0
    case 9 => x & 0x40 != 0
    case 10 => x & 0x20 != 0
    case 11 => x & 0x10 != 0
    case 12 => x & 8 != 0
    case 13 => x & 4 != 0
    case 14 => x & 2 != 0
    case _ => x & 1 != 0
  }

  /** The bits of a register, the highest first. */
  function Bits16(x: bv16): (s: seq<bool>)
    ensures |s| == 16
  {
    seq(16, i requires 0 <= i < 16 => BitAt(x, i))
  }

  lemma {:induction false} PolyAt(bits: seq<bool>, k: nat)
    ensures k in PolyOf(bits) <==> k < |bits| && bits[|bits| - 1 - k]
  {
    if bits != [] {
      var a := PolyOf(bits[..|bits| - 1]);
      PlusAt(TimesX(a), if bits[|bits| - 1] then {0} else {}, k);
      TimesXAt(a, k);
      if k > 0 { PolyAt(bits[..|bits| - 1], k - 1); }
    }
  }

  function Shift(x: bv16, bit: bool): bv16 {
    Sum(x << 1, if bit then 1 else 0)
  }

  lemma ShiftBit(x: bv16, bit: bool, i: nat)
    requires i < 16
    ensures BitAt(Shift(x, bit), i) == if i < 15 then BitAt(x, i + 1) else bit
  {
    match i
    case 0 => case 1 => case 2 => case 3 => case 4 => case 5 => case 6 => case 7 =>
    case 8 => case 9 => case 10 => case 11 => case 12 => case 13 => case 14 => case _ =>
  }

  lemma FlipBit(x: bv16, i: nat)
    requires i < 16
    ensures BitAt(Sum(x, 0x1021), i) == (BitAt(x, i) != (i in {3, 10, 15}))
  {
    match i
    case 0 => case 1 => case 2 => case 3 => case 4 => case 5 => case 6 => case 7 =>
    case 8 => case 9 => case 10 => case 11 => case 12 => case 13 => case 14 => case _ =>
  }

  lemma StepTop(x: bv16)
    ensures Step(x) == if BitAt(x, 0) then Sum(x << 1, 0x1021) else x << 1
  {
  }

  lemma SumSwap(a: bv16, b: bv16, c: bv16)
    ensures Sum(Sum(a, b), c) == Sum(Sum(a, c), b)
  {
    Regroup(a, b, c);
  }

  lemma StepShape(x: bv16, bit: bool)
    ensures BitIn(x, bit) == if BitAt(x, 0) then Sum(Shift(x, bit), 0x1021) else Shift(x, bit)
  {
    hide Sum, Step, BitAt;
    StepTop(x);
    SumSwap(x << 1, 0x1021, if bit then 1 else 0);
  }

  /** What a step of the register does to each of its bits. */
  lemma StepBits(x: bv16, bit: bool, i: nat)
    requires i < 16
    ensures BitAt(BitIn(x, bit), i) == ((if i < 15 then BitAt(x, i + 1) else bit) != (BitAt(x, 0) && i in {3, 10, 15}))
  {
    hide BitIn, BitAt, Sum, Shift;
    StepShape(x, bit);
    ShiftBit(x, bit, i);
    FlipBit(Shift(x, bit), i);
  }

  lemma StepPoly(x: bv16, bit: bool)
    ensures Next(PolyOf(Bits16(x)), bit) ==
      Plus(PolyOf(Bits16(BitIn(x, bit))), if BitAt(x, 0) then G else {})
  {
    hide BitAt, BitIn, PolyOf, Plus, TimesX;
    var p, r, g := PolyOf(Bits16(x)), PolyOf(Bits16(BitIn(x, bit))), if BitAt(x, 0) then G else {};
    forall k: nat
      ensures k in Next(p, bit) <==> k in Plus(r, g)
    {
      PlusAt(TimesX(p), if bit then {0} else {}, k);
      PlusAt(r, g, k);
      TimesXAt(p, k);
      PolyAt(Bits16(BitIn(x, bit)), k);
      if k > 0 { PolyAt(Bits16(x), k - 1); }
      if k < 16 { StepBits(x, bit, 15 - k); }
    }
  }

  /** The quotient: the bits that fall out of the register. */
  function Quotient(bits: seq<bool>): (q: seq<bool>) {
    if bits == [] then []
    else
      var init := bits[..|bits| - 1];
      Quotient(init) + [BitAt(Serial(init), 0)]
  }

  lemma RegroupSum(q: Poly, r: Poly, bit: Poly, g: Poly, r': Poly)
    requires Plus(TimesX(r), bit) == Plus(r', g)
    ensures Plus(TimesX(Plus(q, r)), bit) == Plus(Plus(TimesX(q), g), r')
  {
    forall k: nat
      ensures k in Plus(TimesX(Plus(q, r)), bit) <==> k in Plus(Plus(TimesX(q), g), r')
    {
      TimesXAt(Plus(q, r), k);
      TimesXAt(q, k);
      TimesXAt(r, k);
      assert k in Plus(TimesX(r), bit) <==> k in Plus(r', g);
    }
  }

  /** Division bit by bit divides. */
  lemma {:induction false} SerialDivides(bits: seq<bool>)
    ensures PolyOf(bits) == Plus(TimesG(Quotient(bits)), PolyOf(Bits16(Serial(bits))))
  {
    if bits == [] {
      forall k: nat
        ensures k !in PolyOf(Bits16(0))
      {
        PolyAt(Bits16(0), k);
      }
    } else {
      hide Plus, TimesX, BitAt, BitIn;
      var init, bit := bits[..|bits| - 1], bits[|bits| - 1];
      var x, q := Serial(init), Quotient(init);
      SerialDivides(init);
      StepPoly(x, bit);
      assert Quotient(bits)[..|q|] == q;
      RegroupSum(TimesG(q), PolyOf(Bits16(x)), if bit then {0} else {}, if BitAt(x, 0) then G else {},
                 PolyOf(Bits16(Serial(bits))));
    }
  }

  // ----- There is only one remainder -----

  function XorBits(a: seq<bool>, b: seq<bool>): seq<bool> {
    if a == [] then b
    else if b == [] then a
    else XorBits(a[..|a| - 1], b[..|b| - 1]) + [a[|a| - 1] != b[|b| - 1]]
  }

  lemma RegroupProducts(a: Poly, b: Poly, c: Poly, d: Poly)
    ensures Plus(TimesX(Plus(a, b)), Plus(c, d)) == Plus(Plus(TimesX(a), c), Plus(TimesX(b), d))
  {
    forall k: nat
      ensures k in Plus(TimesX(Plus(a, b)), Plus(c, d)) <==> k in Plus(Plus(TimesX(a), c), Plus(TimesX(b), d))
    {
      TimesXAt(Plus(a, b), k);
      TimesXAt(a, k);
      TimesXAt(b, k);
    }
  }

  lemma {:induction false} SumOfProducts(a: seq<bool>, b: seq<bool>)
    ensures TimesG(XorBits(a, b)) == Plus(TimesG(a), TimesG(b))
  {
    if a != [] && b != [] {
      var u, v := a[..|a| - 1], b[..|b| - 1];
      SumOfProducts(u, v);
      var c, d := a[|a| - 1], b[|b| - 1];
      RegroupProducts(TimesG(u), TimesG(v), if c then G else {}, if d then G else {});
      assert XorBits(a, b)[..|XorBits(u, v)|] == XorBits(u, v);
      assert Plus(if c then G else {}, if d then G else {}) == if c != d then G else {};
    }
  }

  /** A multiple of the divisor that is not zero has a term of degree 16 or more. */
  lemma {:induction false} MultipleIsLarge(q: seq<bool>) returns (d: nat)
    requires TimesG(q) != {}
    ensures d >= 16 && d in TimesG(q)
    ensures forall k :: k in TimesG(q) ==> k <= d
  {
    var p := TimesG(q[..|q| - 1]);
    if p == {} {
      d := 16;
    } else {
      var c := MultipleIsLarge(q[..|q| - 1]);
      d := c + 1;
      forall k | k in TimesG(q)
        ensures k <= d
      {
        TimesXAt(p, k);
      }
      TimesXAt(p, d);
    }
  }

  lemma SumLaws(a: Poly, b: Poly, r1: Poly, r2: Poly)
    ensures Plus(Plus(a, r1), Plus(b, r2)) == Plus(Plus(a, b), Plus(r1, r2))
    ensures r1 == r2 <==> Plus(r1, r2) == {}
    ensures Plus(a, {}) == a && Plus(a, Plus(a, b)) == b
  {
  }

  /** Remainders are equal exactly if the divisor divides the difference. */
  lemma RemaindersEqual(p1: Poly, r1: Poly, p2: Poly, r2: Poly)
    requires IsRemainder(p1, r1) && IsRemainder(p2, r2)
    ensures r1 == r2 <==> Divides(Plus(p1, p2))
  {
    hide Plus, TimesG;
    var q1 :| p1 == Plus(TimesG(q1), r1);
    var q2 :| p2 == Plus(TimesG(q2), r2);
    SumOfProducts(q1, q2);
    var q, r := XorBits(q1, q2), Plus(r1, r2);
    SumLaws(TimesG(q1), TimesG(q2), r1, r2);
    assert Plus(p1, p2) == Plus(TimesG(q), r);
    SumLaws(TimesG(q), r, r1, r2);
    if r1 != r2 && Divides(Plus(p1, p2)) {
      var q3 :| Plus(p1, p2) == TimesG(q3);
      SumOfProducts(q, q3);
      var d := MultipleIsLarge(XorBits(q, q3));
      PlusAt(r1, r2, d);
      assert false;
    }
  }

  // ----- The results -----

  /** The message as a polynomial: its bits in order, the first the coefficient of the highest power. */
  function Message(m: seq<bv8>): Poly {
    PolyOf(BitsOf(m))
  }

  /** The checksum of `m`, as `Checksum` computes it. */
  function Crc16(m: seq<bv8>): bv16 {
    Serial(BitsOf(m))
  }

  lemma Small(x: bv16)
    ensures forall k :: k in PolyOf(Bits16(x)) ==> k < 16
  {
    forall k | k in PolyOf(Bits16(x))
      ensures k < 16
    {
      PolyAt(Bits16(x), k);
    }
  }

  /** The checksum is the remainder of the message on division, and no other polynomial is. */
  lemma ChecksumIsRemainder(m: seq<bv8>, r: Poly)
    ensures IsRemainder(Message(m), r) <==> r == PolyOf(Bits16(Crc16(m)))
  {
    hide Bits16;
    var c := PolyOf(Bits16(Crc16(m)));
    SerialDivides(BitsOf(m));
    Small(Crc16(m));
    assert IsRemainder(Message(m), c);
    if IsRemainder(Message(m), r) {
      RemaindersEqual(Message(m), c, Message(m), r);
      assert Plus(Message(m), Message(m)) == TimesG([]);
    }
  }

  function Quarter(x: bv16, k: nat): bv16
    requires k < 4
  {
    match k
    case 0 => x & 0xF000
    case 1 => x & 0xF00
    case 2 => x & 0xF0
    case _ => x & 0xF
  }

  lemma SameQuarter(x: bv16, y: bv16, k: nat)
    requires k < 4
    requires BitAt(x, 4 * k) == BitAt(y, 4 * k) && BitAt(x, 4 * k + 1) == BitAt(y, 4 * k + 1)
    requires BitAt(x, 4 * k + 2) == BitAt(y, 4 * k + 2) && BitAt(x, 4 * k + 3) == BitAt(y, 4 * k + 3)
    ensures Quarter(x, k) == Quarter(y, k)
  {
    match k
    case 0 =>
    case 1 =>
    case 2 =>
    case _ =>
  }

  lemma FourQuarters(x: bv16)
    ensures x == Quarter(x, 0) | Quarter(x, 1) | Quarter(x, 2) | Quarter(x, 3)
  {
  }

  lemma SameBits(x: bv16, y: bv16)
    requires forall i :: 0 <= i < 16 ==> BitAt(x, i) == BitAt(y, i)
    ensures x == y
  {
    hide BitAt, Quarter;
    SameQuarter(x, y, 0);
    SameQuarter(x, y, 1);
    SameQuarter(x, y, 2);
    SameQuarter(x, y, 3);
    FourQuarters(x);
    FourQuarters(y);
  }

  lemma RegisterOf(x: bv16, y: bv16)
    requires PolyOf(Bits16(x)) == PolyOf(Bits16(y))
    ensures x == y
  {
    hide BitAt, PolyOf;
    forall i | 0 <= i < 16
      ensures BitAt(x, i) == BitAt(y, i)
    {
      PolyAt(Bits16(x), 15 - i);
      PolyAt(Bits16(y), 15 - i);
    }
    SameBits(x, y);
  }

  /** Two messages have the same checksum exactly if the divisor divides their difference. */
  lemma SameChecksum(m1: seq<bv8>, m2: seq<bv8>)
    ensures Crc16(m1) == Crc16(m2) <==> Divides(Plus(Message(m1), Message(m2)))
  {
    hide Bits16, PolyOf, Divides, IsRemainder;
    var r1, r2 := PolyOf(Bits16(Crc16(m1))), PolyOf(Bits16(Crc16(m2)));
    ChecksumIsRemainder(m1, r1);
    ChecksumIsRemainder(m2, r2);
    RemaindersEqual(Message(m1), r1, Message(m2), r2);
    if r1 == r2 { RegisterOf(Crc16(m1), Crc16(m2)); }
  }

  function Shifted(a: Poly, j: nat): Poly {
    if j == 0 then a else TimesX(Shifted(a, j - 1))
  }

  /** The divisor has no factor `x`. */
  lemma {:induction false} DividesUnshifted(a: Poly, j: nat)
    requires Divides(Shifted(a, j))
    ensures Divides(a)
  {
    if j > 0 {
      var b := Shifted(a, j - 1);
      var q :| TimesX(b) == TimesG(q);
      TimesXAt(b, 0);
      if q == [] {
        assert b == {} by { forall k | k in b ensures false { TimesXAt(b, k + 1); } }
        assert b == TimesG([]);
      } else {
        var p := TimesG(q[..|q| - 1]);
        TimesXAt(p, 0);
        assert !q[|q| - 1];
        assert TimesX(b) == TimesX(p);
        forall k: nat
          ensures k in b <==> k in p
        {
          TimesXAt(b, k + 1);
          TimesXAt(p, k + 1);
        }
        assert b == p;
      }
      DividesUnshifted(a, j - 1);
    }
  }

  lemma {:induction false} ShiftedAt(a: Poly, j: nat, k: nat)
    ensures k in Shifted(a, j) <==> k >= j && k - j in a
  {
    if j > 0 {
      TimesXAt(Shifted(a, j - 1), k);
      if k > 0 { ShiftedAt(a, j - 1, k - 1); }
    }
  }

  /**
   A burst of errors no longer than sixteen bits never goes unseen: two messages whose polynomials
   differ, and only between the powers `j` and `j + 15`, have different checksums.
   */
  lemma BurstIsSeen(m1: seq<bv8>, m2: seq<bv8>, j: nat)
    requires Message(m1) != Message(m2)
    requires forall k :: k in Plus(Message(m1), Message(m2)) ==> j <= k < j + 16
    ensures Crc16(m1) != Crc16(m2)
  {
    var d := Plus(Message(m1), Message(m2));
    var b := set k | k in d :: k - j;
    forall k: nat
      ensures k in d <==> k in Shifted(b, j)
    {
      ShiftedAt(b, j, k);
    }
    assert d == Shifted(b, j);
    if Crc16(m1) == Crc16(m2) {
      SameChecksum(m1, m2);
      DividesUnshifted(b, j);
      var q :| b == TimesG(q);
      var k :| k in d;
      assert k - j in b;
      var e := MultipleIsLarge(q);
      assert false;
    }
  }

  lemma {:induction false} ZeroInFront(m: seq<bv8>)
    ensures BitsOf([0] + m) == seq(8, i => false) + BitsOf(m)
  {
    if m == [] {
      assert [0] + m == [0];
      assert BitsOf([0]) == BitsOf([]) + BitsOfByte(0);
    } else {
      ZeroInFront(m[..|m| - 1]);
      assert ([0] + m)[..|m|] == [0] + m[..|m| - 1];
    }
  }

  lemma LeadingZeroUnseen(m: seq<bv8>)
    ensures Crc16([0] + m) == Crc16(m)
  {
    hide BitsOf;
    ZeroInFront(m);
    forall k: nat
      ensures k in Message([0] + m) <==> k in Message(m)
    {
      PolyAt(BitsOf([0] + m), k);
      PolyAt(BitsOf(m), k);
    }
    assert Plus(Message([0] + m), Message(m)) == TimesG([]);
    SameChecksum([0] + m, m);
  }

  function Zeros(k: nat): seq<bv8> {
    if k == 0 then [] else [0] + Zeros(k - 1)
  }

  /** Zero bytes in front change nothing: the checksum alone, without the length, does not see them. */
  lemma {:induction false} LeadingZerosUnseen(k: nat, m: seq<bv8>)
    ensures Crc16(Zeros(k) + m) == Crc16(m)
  {
    hide Crc16;
    if k == 0 {
      assert [] + m == m;
    } else {
      LeadingZerosUnseen(k - 1, m);
      LeadingZeroUnseen(Zeros(k - 1) + m);
      assert Zeros(k) + m == [0] + (Zeros(k - 1) + m);
    }
  }
}
