/**
 The disk geometry that `autopart` infers from a partition table: sector addresses in the three
 bytes DOS uses, and the pairs of heads and sectors that agree with all of them.
 */
module Geometry {
  import opened Bits

  const MAX_HEADS: nat := 255
  const MAX_SECS: nat := 63
  const NR_PARTITIONS: nat := 4
  const WRAP: nat := 0x1_0000_0000

  type uint32 = x: nat | x < WRAP

  /** The three bytes of a DOS sector address. */
  datatype Dos = Dos(head: byte, sec: byte, cyl: byte)

  datatype Chs = Chs(cyl: nat, head: nat, sec: nat)

  datatype Entry = Entry(used: bool, start: Dos, last: Dos, lowsec: uint32, size: uint32)

  /** What the three bytes say; the sector is rebased to count from 0, modulo the word. */
  function Dos2Chs(d: Dos): Chs {
    Chs(Or(Shl(And(d.sec, 0xC0), 2), d.cyl), d.head, (And(d.sec, 0x3F) - 1) % WRAP)
  }

  /** Where sector `pos` lies. */
  function Place(pos: nat, heads: nat, secs: nat): Chs
    requires heads > 0 && secs > 0
  {
    Chs(pos / (heads * secs), pos % (heads * secs) / secs, pos % secs)
  }

  /** The three bytes for an absolute sector number. */
  function Abs2Dos(pos: uint32, heads: nat, secs: nat): Dos
    requires heads > 0 && secs > 0
  {
    var p := Place(pos, heads, secs);
    Dos(Truncate(p.head), Truncate(Or(p.sec + 1, And(Shr(p.cyl, 2), 0xC0))), Truncate(And(p.cyl, 0xFF)))
  }

  /** The absolute sector that an address names on a disk with `h` heads and `s` sectors a track. */
  function Sector(chs: Chs, h: nat, s: nat): uint32 {
    Linear(chs, h, s) % WRAP
  }

  function Linear(chs: Chs, h: nat, s: nat): nat {
    (chs.cyl * h + chs.head) * s + chs.sec
  }

  // ----- An address survives exactly below cylinder 1024 -----

  lemma AndTwice(x: nat, m: nat)
    ensures And(x, 2 * m) == 2 * And(x / 2, m)
  {
    if x != 0 && m != 0 { assert And(x, 2 * m) == 2 * And(x / 2, (2 * m) / 2); }
  }

  lemma {:induction false} OrDisjoint(x: nat, y: nat, k: nat)
    requires x < Pow2(k)
    ensures Or(x, Shl(y, k)) == x + Shl(y, k)
  {
    if k == 0 {
    } else {
      OrDisjoint(x / 2, y, k - 1);
      if x != 0 && y != 0 { assert Shl(y, k) / 2 == Shl(y, k - 1); }
      ZeroShl(k);
      ZeroShl(k - 1);
    }
  }

  lemma {:induction false} ZeroShl(k: nat)
    ensures Shl(0, k) == 0
  {
    if k > 0 { ZeroShl(k - 1); }
  }

  lemma {:induction false} AndOnes(x: nat, k: nat)
    ensures And(x, Pow2(k) - 1) == Low(x, k)
  {
    if k > 0 {
      AndOnes(x / 2, k - 1);
      var m := Pow2(k) - 1;
      assert m / 2 == Pow2(k - 1) - 1 && m % 2 == 1;
      if x == 0 { LowZero(k); } else { assert And(x, m) == x % 2 + 2 * And(x / 2, m / 2); }
    }
  }

  lemma {:induction false} LowZero(k: nat)
    ensures Low(0, k) == 0
  {
    if k > 0 { LowZero(k - 1); }
  }

  lemma {:induction false} LowIsMod(x: nat, k: nat)
    ensures And(x, Pow2(k) - 1) == Low(x, k) == x % Pow2(k)
  {
    hide And;
    AndOnes(x, k);
    if k > 0 {
      LowIsMod(x / 2, k - 1);
      ModTwice(x, Pow2(k - 1));
    }
  }

  lemma ModTwice(x: nat, m: nat)
    requires m > 0
    ensures x % (2 * m) == x % 2 + 2 * (x / 2 % m)
  {
    var q, r := x / 2 / m, x / 2 % m;
    assert x == 2 * (q * m + r) + x % 2;
    assert x == q * (2 * m) + (2 * r + x % 2);
    ModIs(x, 2 * m, q, 2 * r + x % 2);
  }

  lemma TimesFar(k: int, m: nat)
    requires k != 0
    ensures k * m >= m || k * m <= 0 - m
  {
    if k > 0 {
      TimesGrows(1, k, m, m);
    } else {
      TimesGrows(1, -k, m, m);
      assert k * m == -(-k * m);
    }
  }

  lemma TimesGrows(a: nat, b: nat, c: nat, d: nat)
    requires a <= b && c <= d
    ensures a * c <= b * d
  {
    assert b * d == a * c + a * (d - c) + (b - a) * d;
  }

  lemma ModIs(x: nat, m: nat, q: nat, r: nat)
    requires m > 0 && r < m && x == q * m + r
    ensures x % m == r && x / m == q
  {
    var d, e := x / m, x % m;
    assert (d - q) * m == r - e;
    if d != q { TimesFar(d - q, m); }
  }

  lemma {:induction false} Halves(x: nat, k: nat)
    ensures Shr(x, k) == x / Pow2(k) && Shl(x, k) == x * Pow2(k)
  {
    if k > 0 {
      Halves(x / 2, k - 1);
      Halves(x, k - 1);
      DivTwice(x, Pow2(k - 1));
      Double(x, Pow2(k - 1));
    }
  }

  lemma Double(x: nat, m: nat)
    ensures x * (2 * m) == 2 * (x * m)
  {
  }

  lemma DivTwice(x: nat, m: nat)
    requires m > 0
    ensures x / (2 * m) == x / 2 / m
  {
    var q, r := x / 2 / m, x / 2 % m;
    assert x == 2 * (q * m + r) + x % 2;
    ModIs(x, 2 * m, q, 2 * r + x % 2);
  }

  lemma Pow2s()
    ensures Pow2(2) == 4 && Pow2(6) == 64 && Pow2(8) == 256
  {
    assert Pow2(4) == 16;
  }

  /** The two high bits of a byte. */
  lemma HighPair(x: nat)
    ensures And(x, 0xC0) == x / 64 % 4 * 64
  {
    hide And, Low, Pow2;
    AndTwice(x, 96);
    AndTwice(x / 2, 48);
    AndTwice(x / 4, 24);
    AndTwice(x / 8, 12);
    AndTwice(x / 16, 6);
    AndTwice(x / 32, 3);
    LowIsMod(x / 64, 2);
    Pow2s();
  }

  lemma LowByte(x: nat)
    ensures And(x, 0xFF) == x % 256 && Truncate(x) == x % 256 && And(x, 0x3F) == x % 64
  {
    LowIsMod(x, 8);
    LowIsMod(x, 6);
    Pow2s();
  }

  lemma SecByte(s: nat, c: nat)
    requires s < 64
    ensures Truncate(Or(s, And(Shr(c, 2), 0xC0))) == s + c / 256 % 4 * 64
  {
    hide And, Or, Shr, Shl, Pow2, Low, Truncate;
    Pow2s();
    Halves(c, 2);
    HighPair(c / 4);
    var t := c / 256 % 4;
    assert c / 4 / 64 == c / 256;
    Halves(t, 6);
    OrDisjoint(s, t, 6);
    LowByte(s + t * 64);
  }

  lemma Low10(c: nat)
    ensures c % 1024 == c / 256 % 4 * 256 + c % 256
  {
  }

  /** The cylinder number comes back modulo 1024. */
  lemma CylinderBack(s: nat, c: nat)
    requires s < 64
    ensures Or(Shl(And(s + c / 256 % 4 * 64, 0xC0), 2), c % 256) == c % 1024
  {
    hide And, Or, Shl, Pow2;
    var t := c / 256 % 4;
    var b := s + t * 64;
    HighPair(b);
    assert b / 64 == t;
    Pow2s();
    Halves(t * 64, 2);
    OrLow(t, c % 256);
    Low10(c);
  }

  /** The layout of the three bytes: six bits of sector, counted from 1, below the two high bits of the cylinder. */
  lemma DosIs(pos: uint32, heads: nat, secs: nat)
    requires heads > 0 && secs > 0 && Place(pos, heads, secs).head < 256 && Place(pos, heads, secs).sec < 63
    ensures var p := Place(pos, heads, secs);
      Abs2Dos(pos, heads, secs) == Dos(p.head, p.sec + 1 + 64 * (p.cyl / 256 % 4), p.cyl % 256)
  {
    hide Place, And, Or, Shr, Shl, Pow2, Low, Truncate;
    var p := Place(pos, heads, secs);
    LowByte(p.head);
    LowByte(p.cyl);
    LowByte(p.cyl % 256);
    SecByte(p.sec + 1, p.cyl);
  }

  lemma Rebased(x: nat)
    requires x < 64
    ensures (x - 1) % WRAP == if x == 0 then WRAP - 1 else x - 1
  {
  }

  lemma HighBits(b: byte)
    ensures Shl(And(b, 0xC0), 2) == b / 64 * 256
  {
    hide And, Shl, Pow2;
    HighPair(b);
    Pow2s();
    Halves(b / 64 * 64, 2);
  }

  /** What any three bytes say. */
  lemma ChsIs(d: Dos)
    ensures Dos2Chs(d) == Chs(d.sec / 64 * 256 + d.cyl, d.head, if d.sec % 64 == 0 then WRAP - 1 else d.sec % 64 - 1)
  {
    hide And, Or, Shl, Pow2;
    HighBits(d.sec);
    LowByte(d.sec);
    Rebased(d.sec % 64);
    OrLow(d.sec / 64, d.cyl);
  }

  /** Reading back what was written. */
  lemma ReadBack(pos: uint32, heads: nat, secs: nat)
    requires heads > 0 && secs > 0 && Place(pos, heads, secs).head < 256 && Place(pos, heads, secs).sec < 63
    ensures var p := Place(pos, heads, secs); Dos2Chs(Abs2Dos(pos, heads, secs)) == p.(cyl := p.cyl % 1024)
  {
    hide Place, And, Or, Shr, Shl, Pow2, Low, Truncate;
    var p := Place(pos, heads, secs);
    var c, s := p.cyl, p.sec + 1;
    LowByte(p.head);
    LowByte(c);
    LowByte(c % 256);
    SecByte(s, c);
    CylinderBack(s, c);
    LowByte(s + c / 256 % 4 * 64);
    assert (s + c / 256 % 4 * 64) % 64 == s;
  }

  lemma HeadFits(rest: nat, heads: nat, secs: nat)
    requires secs > 0 && rest < heads * secs
    ensures rest / secs < heads
  {
    if rest / secs >= heads { TimesGrows(heads, rest / secs, secs, secs); }
  }

  lemma OrLow(t: nat, low: nat)
    requires low < 256
    ensures Or(t * 256, low) == t * 256 + low
  {
    hide Or, Shl, Pow2;
    Pow2s();
    Halves(t, 8);
    OrDisjoint(low, t, 8);
    OrSwap(low, t * 256);
  }

  lemma {:induction false} OrSwap(x: nat, y: nat)
    ensures Or(x, y) == Or(y, x)
    decreases x + y
  {
    if x != 0 && y != 0 { OrSwap(x / 2, y / 2); }
  }

  lemma DivMod(x: nat, m: nat)
    requires m > 0
    ensures x == x / m * m + x % m && 0 <= x % m < m
  {
  }

  lemma PlaceIs(pos: nat, heads: nat, secs: nat)
    requires heads > 0 && secs > 0
    ensures var p := Place(pos, heads, secs);
      p.head < heads && p.sec < secs && pos == Linear(p, heads, secs)
  {
    var w := heads * secs;
    TimesGrows(1, heads, 1, secs);
    InPlace(pos, heads, secs, w);
  }

  lemma InPlace(pos: nat, heads: nat, secs: nat, w: nat)
    requires heads > 0 && secs > 0 && w > 0 && w == heads * secs
    ensures pos % w / secs < heads && pos % secs < secs && pos == Linear(Chs(pos / w, pos % w / secs, pos % secs), heads, secs)
  {
    var c, rest := pos / w, pos % w;
    var h, s := rest / secs, rest % secs;
    hide Linear;
    DivMod(pos, w);
    DivMod(rest, secs);
    HeadFits(rest, heads, secs);
    Composed(pos, c, rest, h, s, heads, secs);
  }

  lemma Composed(pos: nat, c: nat, rest: nat, h: nat, s: nat, heads: nat, secs: nat)
    requires secs > 0 && s < secs && pos == c * (heads * secs) + rest && rest == h * secs + s
    ensures pos == Linear(Chs(c, h, s), heads, secs) && pos % secs == s
  {
    Regroup(c, heads, h, secs);
    ModIs(pos, secs, c * heads + h, s);
  }

  lemma Regroup(c: nat, heads: nat, h: nat, secs: nat)
    ensures c * (heads * secs) + h * secs == (c * heads + h) * secs
  {
  }

  /** No word overflows below cylinder 1024. */
  lemma SmallSector(p: Chs, heads: nat, secs: nat)
    requires p.cyl < 1024 && p.head < heads <= MAX_HEADS && p.sec < secs <= MAX_SECS
    ensures Sector(p, heads, secs) == Linear(p, heads, secs)
  {
    TimesGrows(p.cyl, 1023, heads, 255);
    TimesGrows(p.cyl * heads + p.head, 1023 * 255 + 255, secs, 63);
  }

  lemma Farther(p: Chs, c: nat, heads: nat, secs: nat)
    requires c < p.cyl && heads >= 1 && secs >= 1
    ensures Linear(p.(cyl := c), heads, secs) < Linear(p, heads, secs)
  {
    TimesGrows(c + 1, p.cyl, heads, heads);
    assert (c + 1) * heads == c * heads + heads;
    TimesGrows(c * heads + p.head + 1, p.cyl * heads + p.head, secs, secs);
    assert (c * heads + p.head + 1) * secs == (c * heads + p.head) * secs + secs;
  }

  /** Below cylinder 1024, and only there, the address names the sector it was made for. */
  lemma AddressSurvives(pos: uint32, heads: nat, secs: nat)
    requires 1 <= heads <= MAX_HEADS && 1 <= secs <= MAX_SECS
    ensures Sector(Dos2Chs(Abs2Dos(pos, heads, secs)), heads, secs) == pos <==>
      Place(pos, heads, secs).cyl < 1024
  {
    hide Dos2Chs, Abs2Dos, Sector, Place, Linear;
    var p := Place(pos, heads, secs);
    PlaceIs(pos, heads, secs);
    ReadBack(pos, heads, secs);
    SmallSector(p.(cyl := p.cyl % 1024), heads, secs);
    if p.cyl >= 1024 { Farther(p, p.cyl % 1024, heads, secs); }
  }
}
