/** Packing one code into, and unpacking it from, the bit buffer shared by eight codes. */
module LzwBuffer {
  import opened Bits
  import opened LzwStream

  const RMASK: seq<byte> := [0x00, 0x01, 0x03, 0x07, 0x0f, 0x1f, 0x3f, 0x7f, 0xff]
  const LMASK: seq<byte> := [0xff, 0xfe, 0xfc, 0xf8, 0xf0, 0xe0, 0xc0, 0x80, 0x00]

  lemma MaskValue(r: nat)
    requires r <= 8
    ensures RMASK[r] == Pow2(r) - 1 && LMASK[r] == Pow2(8) - 1 - RMASK[r]
  {
    Widths();
    assert r == 0 || r == 1 || r == 2 || r == 3 || r == 4 || r == 5 || r == 6 || r == 7 || r == 8;
  }

  lemma {:induction false} ComplementBit(x: nat, k: nat, i: nat)
    requires x < Pow2(k)
    ensures Bit(Pow2(k) - 1 - x, i) == (i < k && !Bit(x, i))
  {
    if k == 0 {
      ZeroBit(i);
    } else if i > 0 {
      ComplementBit(x / 2, k - 1, i - 1);
      assert (Pow2(k) - 1 - x) / 2 == Pow2(k - 1) - 1 - x / 2;
    }
  }

  lemma MaskBits(r: nat, i: nat)
    requires r <= 8
    ensures Bit(RMASK[r], i) == (i < r)
    ensures Bit(LMASK[r], i) == (r <= i < 8)
  {
    MaskValue(r);
    Pow2Monotone(r, 8);
    ZeroBit(i);
    ComplementBit(0, r, i);
    ComplementBit(RMASK[r], 8, i);
  }

  /** The first byte of a code: `r` old bits stay, the rest come from the code. */
  function FirstByte(was: byte, code: nat, r: nat): (x: byte)
    requires r < 8
    ensures forall i :: 0 <= i < 8 ==> Bit(x, i) == if i < r then Bit(was, i) else Bit(code, i - r)
  {
    var keep, add := And(was, RMASK[r]), And(Shl(code, r), LMASK[r]);
    assert Or(keep, add) < 256 by {
      Widths();
      AndBound(was, RMASK[r]);
      AndBound(Shl(code, r), LMASK[r]);
      OrBound(keep, add, 8);
    }
    assert forall i :: 0 <= i < 8 ==> Bit(Or(keep, add), i) == if i < r then Bit(was, i) else Bit(code, i - r) by {
      forall i | 0 <= i < 8
        ensures Bit(Or(keep, add), i) == if i < r then Bit(was, i) else Bit(code, i - r)
      {
        OrBit(keep, add, i);
        AndBit(was, RMASK[r], i);
        AndBit(Shl(code, r), LMASK[r], i);
        ShlBit(code, r, i);
        MaskBits(r, i);
      }
    }
    Or(keep, add)
  }

  lemma BitAt(s: seq<byte>, q: nat, k: nat)
    requires q < |s| && k < 8
    ensures StreamBit(s, 8 * q + k) == Bit(s[q], k)
  {
    assert (8 * q + k) / 8 == q && (8 * q + k) % 8 == k;
  }

  lemma TruncatedBit(rest: nat, i: nat)
    requires i < 8
    ensures Bit(Truncate(rest), i) == Bit(rest, i)
  {
    LowBit(rest, 8, i);
  }

  lemma InsertedBit(s: seq<byte>, q: nat, r: nat, n: nat, code: nat, b: nat)
    requires r < 8 && b < n && r + n <= 24 && 8 * q + r + n <= 8 * |s|
    requires forall i :: r <= i < 8 ==> Bit(s[q], i) == Bit(code, i - r)
    requires r + n > 8 ==> s[q + 1] == Truncate(Shr(code, 8 - r))
    requires r + n > 16 ==> s[q + 2] == Truncate(Shr(Shr(code, 8 - r), 8))
    ensures StreamBit(s, 8 * q + r + b) == Bit(code, b)
  {
    var k := r + b;
    if k < 8 {
      BitAt(s, q, k);
    } else if k < 16 {
      BitAt(s, q + 1, k - 8);
      LaterBit(code, 8 - r, k - 8);
    } else {
      BitAt(s, q + 2, k - 16);
      LaterBit(Shr(code, 8 - r), 8, k - 16);
      ShrBit(code, 8 - r, k - 8);
    }
  }

  lemma LaterBit(x: nat, shift: nat, i: nat)
    requires i < 8
    ensures Bit(Truncate(Shr(x, shift)), i) == Bit(x, i + shift)
  {
    TruncatedBit(Shr(x, shift), i);
    ShrBit(x, shift, i);
  }

  lemma KeptBits(s: seq<byte>, t: seq<byte>, q: nat, r: nat)
    requires |s| == |t| && q < |s| && r < 8 && s[..q] == t[..q]
    requires forall i :: 0 <= i < r ==> Bit(s[q], i) == Bit(t[q], i)
    ensures SameBits(s, t, 8 * q + r)
  {
    forall i | 0 <= i < 8 * q + r
      ensures StreamBit(s, i) == StreamBit(t, i)
    {
      if i / 8 < q {
        assert s[i / 8] == s[..q][i / 8] == t[..q][i / 8] == t[i / 8];
      }
    }
  }

  lemma Inserted(was: seq<byte>, s: seq<byte>, offset: nat, q: nat, r: nat, n: nat, code: nat)
    requires offset == 8 * q + r
    requires |s| == |was| && r < 8 && r + n <= 24 && 8 * q + r + n <= 8 * |s| && n > 0
    requires s[..q] == was[..q] && s[q] == FirstByte(was[q], code, r)
    requires r + n > 8 ==> s[q + 1] == Truncate(Shr(code, 8 - r))
    requires r + n > 16 ==> s[q + 2] == Truncate(Shr(Shr(code, 8 - r), 8))
    ensures SameBits(was, s, offset)
    ensures CodeAt(s, Cursor(0, offset, n, 0), code)
  {
    KeptBits(was, s, q, r);
    var c := Cursor(0, offset, n, 0);
    forall b | 0 <= b < n
      ensures StreamBit(s, Position(c) + b) == Bit(code, b)
    {
      InsertedBit(s, q, r, n, code, b);
    }
  }

  /** Put the low `n` bits of `code` into `buf` from bit `offset` on. */
  method Insert(buf: array<byte>, offset: nat, n: nat, code: nat)
    requires INIT_BITS <= n <= BITS && offset + n <= 8 * buf.Length
    requires code < Pow2(n)
    modifies buf
    ensures SameBits(old(buf[..]), buf[..], offset)
    ensures CodeAt(buf[..], Cursor(0, offset, n, 0), code)
  {
    ghost var was := buf[..];
    var bp, rOff := offset / 8, offset % 8;
    ghost var q, r := bp, rOff;
    var bits, rest := n, code;
    buf[bp] := FirstByte(buf[bp], rest, rOff);
    bp := bp + 1;
    bits := bits - (8 - rOff);
    rest := Shr(rest, 8 - rOff);
    if bits >= 8 {
      buf[bp] := Truncate(rest);
      bp := bp + 1;
      rest := Shr(rest, 8);
      bits := bits - 8;
    }
    if bits != 0 {
      buf[bp] := Truncate(rest);
    }
    Inserted(was, buf[..], offset, q, r, n, code);
  }

  /** A code that ends in its second byte, of which it takes the low `bits` bits. */
  lemma TwoBytes(b0: byte, b1: byte, r: nat, bits: nat, b: nat)
    requires r < 8 && bits < 8
    ensures Bit(Or(Shr(b0, r), Shl(And(b1, RMASK[bits]), 8 - r)), b)
      == if r + b < 8 then Bit(b0, r + b) else r + b - 8 < bits && Bit(b1, r + b - 8)
  {
    var last := And(b1, RMASK[bits]);
    OrBit(Shr(b0, r), Shl(last, 8 - r), b);
    ShiftedBit(b0, r, b);
    ShlBit(last, 8 - r, b);
    if r + b >= 8 {
      AndBit(b1, RMASK[bits], r + b - 8);
      MaskBits(bits, r + b - 8);
    }
  }

  /** A code that spans its second byte and takes the low `bits` bits of a third. */
  lemma ThreeBytes(b0: byte, b1: byte, b2: byte, r: nat, bits: nat, b: nat)
    requires r < 8 && bits < 8
    ensures Bit(Or(Or(Shr(b0, r), Shl(b1, 8 - r)), Shl(And(b2, RMASK[bits]), 16 - r)), b)
      == if r + b < 8 then Bit(b0, r + b)
         else if r + b < 16 then Bit(b1, r + b - 8)
         else r + b - 16 < bits && Bit(b2, r + b - 16)
  {
    var last := And(b2, RMASK[bits]);
    OrBit(Or(Shr(b0, r), Shl(b1, 8 - r)), Shl(last, 16 - r), b);
    OrBit(Shr(b0, r), Shl(b1, 8 - r), b);
    ShiftedBit(b0, r, b);
    ShlBit(b1, 8 - r, b);
    ShlBit(last, 16 - r, b);
    if r + b >= 16 {
      HighByteBit(b1, r + b - 8);
      AndBit(b2, RMASK[bits], r + b - 16);
      MaskBits(bits, r + b - 16);
    }
  }

  /** A number whose bits at and above `n` are clear is below 2^n. */
  lemma {:induction false} BoundFromBits(x: nat, n: nat)
    requires forall b :: b >= n ==> !Bit(x, b)
    ensures x < Pow2(n)
    decreases n, x
  {
    if n == 0 {
      if x > 0 {
        forall b | b >= 0
          ensures !Bit(x / 2, b)
        {
          assert !Bit(x, b + 1);
        }
        BoundFromBits(x / 2, 0);
        assert !Bit(x, 0);
      }
    } else {
      forall b | b >= n - 1
        ensures !Bit(x / 2, b)
      {
        assert !Bit(x, b + 1);
      }
      BoundFromBits(x / 2, n - 1);
    }
  }

  /** Read the `n` bits of `buf` from bit `offset` on. */
  method Extract(buf: array<byte>, offset: nat, n: nat) returns (code: nat)
    requires INIT_BITS <= n <= BITS && offset + n <= 8 * buf.Length
    ensures code < Pow2(n)
    ensures CodeAt(buf[..], Cursor(0, offset, n, 0), code)
  {
    var bp, rOff := offset / 8, offset % 8;
    ghost var first, r := bp, rOff;
    var bits := n;
    code := Shr(buf[bp], rOff);
    bp := bp + 1;
    bits := bits - (8 - rOff);
    rOff := 8 - rOff;
    if bits >= 8 {
      code := Or(code, Shl(buf[bp], rOff));
      bp := bp + 1;
      rOff := rOff + 8;
      bits := bits - 8;
    }
    // With no bits left the mask is zero; the byte past the end of the buffer is not modelled.
    var last := if bits == 0 then 0 else buf[bp];
    code := Or(code, Shl(And(last, RMASK[bits]), rOff));
    var s := buf[..];
    forall b: nat
      ensures Bit(code, b) == (b < n && StreamBit(s, offset + b))
    {
      Where(offset, b);
      if bp == first + 2 {
        ThreeBytes(s[first], s[first + 1], last, r, bits, b);
      } else {
        TwoBytes(s[first], last, r, bits, b);
      }
    }
    BoundFromBits(code, n);
    ghost var c := Cursor(0, offset, n, 0);
    assert forall b :: 0 <= b < n ==> StreamBit(s, Position(c) + b) == Bit(code, b);
  }

  lemma Where(offset: nat, b: nat)
    ensures offset % 8 + b < 8 ==> (offset + b) / 8 == offset / 8 && (offset + b) % 8 == offset % 8 + b
    ensures 8 <= offset % 8 + b < 16 ==> (offset + b) / 8 == offset / 8 + 1 && (offset + b) % 8 == offset % 8 + b - 8
    ensures 16 <= offset % 8 + b < 24 ==> (offset + b) / 8 == offset / 8 + 2 && (offset + b) % 8 == offset % 8 + b - 16
  {
  }

  lemma HighByteBit(x: byte, i: nat)
    requires i >= 8
    ensures !Bit(x, i)
  {
    Widths();
    HighBit(x, 8, i);
  }

  lemma ShiftedBit(x: byte, r: nat, b: nat)
    ensures Bit(Shr(x, r), b) == (r + b < 8 && Bit(x, r + b))
  {
    ShrBit(x, r, b);
    if r + b >= 8 { HighByteBit(x, r + b); }
  }
}
