/**
 The checksum of `crc`: a table-driven loop over bytes. It is the remainder of the message, read as
 a polynomial over GF(2), on division by x^16 + x^12 + x^5 + 1, without the customary sixteen zero
 bits behind the message.
 */
module Crc {

  // ----- The program -----

  /** The `i`-th line of the table. */
  function Row(i: nat): (r: seq<bv16>)
    requires i < 32
    ensures |r| == 8
  {
    match i
    case 0 => [0x0000, 0x1021, 0x2042, 0x3063, 0x4084, 0x50a5, 0x60c6, 0x70e7]
    case 1 => [0x8108, 0x9129, 0xa14a, 0xb16b, 0xc18c, 0xd1ad, 0xe1ce, 0xf1ef]
    case 2 => [0x1231, 0x0210, 0x3273, 0x2252, 0x52b5, 0x4294, 0x72f7, 0x62d6]
    case 3 => [0x9339, 0x8318, 0xb37b, 0xa35a, 0xd3bd, 0xc39c, 0xf3ff, 0xe3de]
    case 4 => [0x2462, 0x3443, 0x0420, 0x1401, 0x64e6, 0x74c7, 0x44a4, 0x5485]
    case 5 => [0xa56a, 0xb54b, 0x8528, 0x9509, 0xe5ee, 0xf5cf, 0xc5ac, 0xd58d]
    case 6 => [0x3653, 0x2672, 0x1611, 0x0630, 0x76d7, 0x66f6, 0x5695, 0x46b4]
    case 7 => [0xb75b, 0xa77a, 0x9719, 0x8738, 0xf7df, 0xe7fe, 0xd79d, 0xc7bc]
    case 8 => [0x48c4, 0x58e5, 0x6886, 0x78a7, 0x0840, 0x1861, 0x2802, 0x3823]
    case 9 => [0xc9cc, 0xd9ed, 0xe98e, 0xf9af, 0x8948, 0x9969, 0xa90a, 0xb92b]
    case 10 => [0x5af5, 0x4ad4, 0x7ab7, 0x6a96, 0x1a71, 0x0a50, 0x3a33, 0x2a12]
    case 11 => [0xdbfd, 0xcbdc, 0xfbbf, 0xeb9e, 0x9b79, 0x8b58, 0xbb3b, 0xab1a]
    case 12 => [0x6ca6, 0x7c87, 0x4ce4, 0x5cc5, 0x2c22, 0x3c03, 0x0c60, 0x1c41]
    case 13 => [0xedae, 0xfd8f, 0xcdec, 0xddcd, 0xad2a, 0xbd0b, 0x8d68, 0x9d49]
    case 14 => [0x7e97, 0x6eb6, 0x5ed5, 0x4ef4, 0x3e13, 0x2e32, 0x1e51, 0x0e70]
    case 15 => [0xff9f, 0xefbe, 0xdfdd, 0xcffc, 0xbf1b, 0xaf3a, 0x9f59, 0x8f78]
    case 16 => [0x9188, 0x81a9, 0xb1ca, 0xa1eb, 0xd10c, 0xc12d, 0xf14e, 0xe16f]
    case 17 => [0x1080, 0x00a1, 0x30c2, 0x20e3, 0x5004, 0x4025, 0x7046, 0x6067]
    case 18 => [0x83b9, 0x9398, 0xa3fb, 0xb3da, 0xc33d, 0xd31c, 0xe37f, 0xf35e]
    case 19 => [0x02b1, 0x1290, 0x22f3, 0x32d2, 0x4235, 0x5214, 0x6277, 0x7256]
    case 20 => [0xb5ea, 0xa5cb, 0x95a8, 0x8589, 0xf56e, 0xe54f, 0xd52c, 0xc50d]
    case 21 => [0x34e2, 0x24c3, 0x14a0, 0x0481, 0x7466, 0x6447, 0x5424, 0x4405]
    case 22 => [0xa7db, 0xb7fa, 0x8799, 0x97b8, 0xe75f, 0xf77e, 0xc71d, 0xd73c]
    case 23 => [0x26d3, 0x36f2, 0x0691, 0x16b0, 0x6657, 0x7676, 0x4615, 0x5634]
    case 24 => [0xd94c, 0xc96d, 0xf90e, 0xe92f, 0x99c8, 0x89e9, 0xb98a, 0xa9ab]
    case 25 => [0x5844, 0x4865, 0x7806, 0x6827, 0x18c0, 0x08e1, 0x3882, 0x28a3]
    case 26 => [0xcb7d, 0xdb5c, 0xeb3f, 0xfb1e, 0x8bf9, 0x9bd8, 0xabbb, 0xbb9a]
    case 27 => [0x4a75, 0x5a54, 0x6a37, 0x7a16, 0x0af1, 0x1ad0, 0x2ab3, 0x3a92]
    case 28 => [0xfd2e, 0xed0f, 0xdd6c, 0xcd4d, 0xbdaa, 0xad8b, 0x9de8, 0x8dc9]
    case 29 => [0x7c26, 0x6c07, 0x5c64, 0x4c45, 0x3ca2, 0x2c83, 0x1ce0, 0x0cc1]
    case 30 => [0xef1f, 0xff3e, 0xcf5d, 0xdf7c, 0xaf9b, 0xbfba, 0x8fd9, 0x9ff8]
    case _ => [0x6e17, 0x7e36, 0x4e55, 0x5e74, 0x2e93, 0x3eb2, 0x0ed1, 0x1ef0]
  }

  function CrcTab(i: nat): bv16
    requires i < 256
  {
    Row(i / 8)[i % 8]
  }

  function UpdCrc(cp: bv8, crc: bv16): bv16 {
    CrcTab(((crc >> 8) & 255) as nat) ^ (crc << 8) ^ (cp as bv16)
  }

  /** The checksum that the program prints, and the length beside it. */
  method Checksum(m: seq<bv8>) returns (crc: bv16, len: nat)
    ensures crc == Serial(BitsOf(m)) && len == |m|
  {
    assert Serial([]) == 0;
    hide UpdCrc, BitsOfByte, ByteIn, Serial;
    crc, len := 0, 0;
    while len < |m|
      invariant len <= |m| && crc == Serial(BitsOf(m[..len]))
    {
      ByteStep(m[len], crc);
      SerialByte(BitsOf(m[..len]), m[len]);
      assert m[..len + 1][..len] == m[..len];
      crc := UpdCrc(m[len], crc);
      len := len + 1;
    }
    assert m[..len] == m;
  }

  // ----- Bit by bit -----

  /** The bits of a byte, most significant first: the order in which the checksum takes them. */
  function BitsOfByte(b: bv8): (s: seq<bool>)
    ensures |s| == 8
  {
    [b & 0x80 != 0, b & 0x40 != 0, b & 0x20 != 0, b & 0x10 != 0, b & 8 != 0, b & 4 != 0, b & 2 != 0, b & 1 != 0]
  }

  function BitsOf(m: seq<bv8>): (s: seq<bool>)
    ensures |s| == 8 * |m|
  {
    if m == [] then [] else BitsOf(m[..|m| - 1]) + BitsOfByte(m[|m| - 1])
  }

  function Sum(x: bv16, y: bv16): bv16 {
    x ^ y
  }

  /** One step of the division register: shift, and subtract the divisor if a bit falls out. */
  function Step(x: bv16): bv16 {
    if x & 0x8000 != 0 then (x << 1) ^ 0x1021 else x << 1
  }

  /** The same step with the next bit of the message shifted in. */
  function BitIn(x: bv16, bit: bool): bv16 {
    Sum(Step(x), if bit then 1 else 0)
  }

  /** Division bit by bit. */
  function Serial(bits: seq<bool>): bv16 {
    if bits == [] then 0 else BitIn(Serial(bits[..|bits| - 1]), bits[|bits| - 1])
  }

  function Step4(x: bv16): bv16 {
    Step(Step(Step(Step(x))))
  }

  function Step8(x: bv16): bv16 {
    Step4(Step4(x))
  }

  lemma ShiftSum(x: bv16, y: bv16)
    ensures (x ^ y) << 1 == (x << 1) ^ (y << 1)
    ensures (x ^ y) & 0x8000 == (x & 0x8000) ^ (y & 0x8000)
    ensures x & 0x8000 == 0 || x & 0x8000 == 0x8000
  {
  }

  lemma Regroup(a: bv16, b: bv16, g: bv16)
    ensures (a ^ b) ^ g == (a ^ g) ^ b == a ^ (b ^ g) && (a ^ g) ^ (b ^ g) == a ^ b
  {
  }

  lemma StepSum(x: bv16, y: bv16)
    ensures Step(Sum(x, y)) == Sum(Step(x), Step(y))
  {
    ShiftSum(x, y);
    ShiftSum(y, x);
    Regroup(x << 1, y << 1, 0x1021);
  }

  lemma Step4Sum(x: bv16, y: bv16)
    ensures Step4(Sum(x, y)) == Sum(Step4(x), Step4(y))
  {
    hide Step, Sum;
    StepSum(x, y);
    StepSum(Step(x), Step(y));
    StepSum(Step(Step(x)), Step(Step(y)));
    StepSum(Step(Step(Step(x))), Step(Step(Step(y))));
  }

  lemma Step8Sum(x: bv16, y: bv16)
    ensures Step8(Sum(x, y)) == Sum(Step8(x), Step8(y))
  {
    hide Step4, Sum;
    Step4Sum(x, y);
    Step4Sum(Step4(x), Step4(y));
  }

  /** What entry `i` of the table should be: its bits, most significant first, with eight zero bits behind. */
  function Entry(i: nat): bv16 {
    if i == 0 then 0 else if i % 2 == 1 then Sum(Step(Entry(i / 2)), 0x1021) else Step(Entry(i / 2))
  }

  /** Each line of the table follows from the line at half its number. */
  ghost predicate RowFollows(i: nat)
    requires i < 32
  {
    var r, h, k := Row(i), Row(i / 2), 4 * (i % 2);
    && r[0] == Step(h[k]) && r[1] == Sum(r[0], 0x1021)
    && r[2] == Step(h[k + 1]) && r[3] == Sum(r[2], 0x1021)
    && r[4] == Step(h[k + 2]) && r[5] == Sum(r[4], 0x1021)
    && r[6] == Step(h[k + 3]) && r[7] == Sum(r[6], 0x1021)
  }

  lemma RowsFollow0(i: nat)
    requires 0 <= i < 4
    ensures RowFollows(i)
  {
    match i
    case 0 =>
    case 1 =>
    case 2 =>
    case _ =>
  }

  lemma RowsFollow1(i: nat)
    requires 4 <= i < 8
    ensures RowFollows(i)
  {
    match i
    case 4 =>
    case 5 =>
    case 6 =>
    case _ =>
  }

  lemma RowsFollow2(i: nat)
    requires 8 <= i < 12
    ensures RowFollows(i)
  {
    match i
    case 8 =>
    case 9 =>
    case 10 =>
    case _ =>
  }

  lemma RowsFollow3(i: nat)
    requires 12 <= i < 16
    ensures RowFollows(i)
  {
    match i
    case 12 =>
    case 13 =>
    case 14 =>
    case _ =>
  }

  lemma RowsFollow4(i: nat)
    requires 16 <= i < 20
    ensures RowFollows(i)
  {
    match i
    case 16 =>
    case 17 =>
    case 18 =>
    case _ =>
  }

  lemma RowsFollow5(i: nat)
    requires 20 <= i < 24
    ensures RowFollows(i)
  {
    match i
    case 20 =>
    case 21 =>
    case 22 =>
    case _ =>
  }

  lemma RowsFollow6(i: nat)
    requires 24 <= i < 28
    ensures RowFollows(i)
  {
    match i
    case 24 =>
    case 25 =>
    case 26 =>
    case _ =>
  }

  lemma RowsFollow7(i: nat)
    requires 28 <= i < 32
    ensures RowFollows(i)
  {
    match i
    case 28 =>
    case 29 =>
    case 30 =>
    case _ =>
  }

  lemma RowsFollow(i: nat)
    requires i < 32
    ensures RowFollows(i)
  {
    hide RowFollows;
    match i / 4
    case 0 => RowsFollow0(i);
    case 1 => RowsFollow1(i);
    case 2 => RowsFollow2(i);
    case 3 => RowsFollow3(i);
    case 4 => RowsFollow4(i);
    case 5 => RowsFollow5(i);
    case 6 => RowsFollow6(i);
    case _ => RowsFollow7(i);
  }


  lemma EntryFollows(i: nat)
    requires i < 256
    ensures CrcTab(i) == if i % 2 == 1 then Sum(Step(CrcTab(i / 2)), 0x1021) else Step(CrcTab(i / 2))
  {
    hide Row, Step, Sum;
    RowsFollow(i / 8);
    assert i / 2 / 8 == i / 8 / 2 && i / 2 % 8 == 4 * (i / 8 % 2) + i % 8 / 2;
  }

  /** The table is right. */
  lemma {:induction false} TableRight(i: nat)
    requires i < 256
    ensures CrcTab(i) == Entry(i)
  {
    if i == 0 {
      assert CrcTab(0) == 0;
    } else {
      hide CrcTab, Step, Sum;
      TableRight(i / 2);
      EntryFollows(i);
    }
  }

  // ----- A byte at a time is eight bits at a time -----

  function Bits4In(x: bv16, b: seq<bool>): bv16
    requires |b| == 4
  {
    BitIn(BitIn(BitIn(BitIn(x, b[0]), b[1]), b[2]), b[3])
  }

  function ByteIn(x: bv16, b: seq<bool>): bv16
    requires |b| == 8
  {
    Bits4In(Bits4In(x, b[..4]), b[4..])
  }

  lemma SerialByte(s: seq<bool>, b: bv8)
    ensures Serial(s + BitsOfByte(b)) == ByteIn(Serial(s), BitsOfByte(b))
  {
    hide BitIn, BitsOfByte, Serial, Bits4In;
    var t := BitsOfByte(b);
    Serial4(s, t[..4]);
    Serial4(s + t[..4], t[4..]);
    assert s + t[..4] + t[4..] == s + t;
  }

  lemma Serial4(s: seq<bool>, b: seq<bool>)
    requires |b| == 4
    ensures Serial(s + b) == Bits4In(Serial(s), b)
  {
    hide BitIn, Serial;
    SerialBit(s, b[0]);
    SerialBit(s + [b[0]], b[1]);
    SerialBit(s + [b[0]] + [b[1]], b[2]);
    SerialBit(s + [b[0]] + [b[1]] + [b[2]], b[3]);
    assert s + b == s + [b[0]] + [b[1]] + [b[2]] + [b[3]];
  }

  lemma SerialBit(s: seq<bool>, bit: bool)
    ensures Serial(s + [bit]) == BitIn(Serial(s), bit)
  {
    assert (s + [bit])[..|s|] == s;
  }

  /** Bits shifted in stay clear of the divisor for the eight steps. */
  lemma Gather(x: bv16, y: bv16, bit: bool)
    requires y < 0x80
    ensures BitIn(Sum(x, y), bit) == Sum(Step(x), NextBit(y, bit))
  {
    hide Sum, Step, NextBit;
    StepSum(x, y);
    StepSmall(y);
    SumBit(Step(x), y, bit);
  }

  function NextBit(y: bv16, bit: bool): bv16 {
    (y << 1) | if bit then 1 else 0
  }

  lemma StepSmall(y: bv16)
    requires y < 0x8000
    ensures Step(y) == y << 1
  {
  }

  lemma SumBit(a: bv16, y: bv16, bit: bool)
    ensures Sum(Sum(a, y << 1), if bit then 1 else 0) == Sum(a, NextBit(y, bit))
  {
    Regroup(a, y << 1, 1);
    Regroup(a, y << 1, 0);
  }

  function Nibble(y: bv16, b: seq<bool>): bv16
    requires |b| == 4
  {
    NextBit(NextBit(NextBit(NextBit(y, b[0]), b[1]), b[2]), b[3])
  }

  lemma NextSmall(y: bv16, bit: bool, k: bv16)
    requires y < k <= 0x4000
    ensures NextBit(y, bit) < k << 1
  {
  }

  lemma Gather4(x: bv16, y: bv16, b: seq<bool>)
    requires |b| == 4 && y < 0x10
    ensures Bits4In(Sum(x, y), b) == Sum(Step4(x), Nibble(y, b))
  {
    hide BitIn, Sum, Step, NextBit;
    var y1 := NextBit(y, b[0]);
    var y2 := NextBit(y1, b[1]);
    var y3 := NextBit(y2, b[2]);
    NextSmall(y, b[0], 0x10);
    NextSmall(y1, b[1], 0x20);
    NextSmall(y2, b[2], 0x40);
    Gather(x, y, b[0]);
    Gather(Step(x), y1, b[1]);
    Gather(Step(Step(x)), y2, b[2]);
    Gather(Step(Step(Step(x))), y3, b[3]);
  }

  lemma ByteGathered(b: bv8)
    ensures Nibble(0, BitsOfByte(b)[..4]) < 0x10
    ensures Nibble(Nibble(0, BitsOfByte(b)[..4]), BitsOfByte(b)[4..]) == b as bv16
  {
  }

  lemma GatherByte(x: bv16, b: bv8)
    ensures ByteIn(x, BitsOfByte(b)) == Sum(Step8(x), b as bv16)
  {
    hide Bits4In, Sum, Step4, Nibble, BitsOfByte;
    var t := BitsOfByte(b);
    ByteGathered(b);
    SumZero(x);
    Gather4(x, 0, t[..4]);
    Gather4(Step4(x), Nibble(0, t[..4]), t[4..]);
  }

  lemma SumZero(x: bv16)
    ensures Sum(x, 0) == x
  {
  }

  lemma Half(x: bv16)
    requires x < 256
    ensures (x as nat) / 2 == (x >> 1) as nat && (x as nat) % 2 == (x & 1) as nat
  {
  }

  lemma Split(x: bv16)
    requires x < 256
    ensures x << 8 == Sum((x >> 1) << 8 << 1, if x & 1 == 1 then 0x100 else 0)
    ensures ((x >> 1) << 8) < 0x8000
    ensures x & 1 == 0 || x & 1 == 1
  {
  }

  lemma Eighth()
    ensures Step8(0x100) == 0x1021 && Step8(0) == 0
  {
  }

  lemma Later(x: bv16)
    ensures Step8(Step(x)) == Step(Step8(x))
  {
    hide Step;
  }

  /** An entry is what eight steps make of its number in the top byte. */
  lemma {:induction false} EntryIs(x: bv16)
    requires x < 256
    ensures Entry(x as nat) == Step8(x << 8)
    decreases x as nat
  {
    hide Step, Step8, Sum;
    Eighth();
    if x != 0 {
      Half(x);
      Split(x);
      EntryIs(x >> 1);
      var y := (x >> 1) << 8;
      StepSmall(y);
      Later(y);
      Step8Sum(Step(y), if x & 1 == 1 then 0x100 else 0);
      SumZero(Step8(Step(y)));
    }
  }

  lemma Shift4(x: bv16)
    requires x < 0x1000
    ensures Step4(x) == x << 4
  {
  }

  lemma LowSteps(x: bv16)
    ensures Step8(x & 255) == x << 8
  {
    hide Step4;
    Shift4(x & 255);
    Shift4((x & 255) << 4);
  }

  lemma TopAndLow(x: bv16)
    ensures x == Sum(((x >> 8) & 255) << 8, x & 255)
  {
  }

  lemma Step8Table(x: bv16)
    ensures Step8(x) == Sum(CrcTab(((x >> 8) & 255) as nat), x << 8)
  {
    hide Step8, Sum, CrcTab, Entry;
    var i := (x >> 8) & 255;
    TopAndLow(x);
    EntryIs(i);
    TableRight(i as nat);
    LowSteps(x);
    Step8Sum(i << 8, x & 255);
  }

  lemma XorIsSum(t: bv16, s: bv16, b: bv16)
    ensures t ^ s ^ b == Sum(Sum(t, s), b)
  {
  }

  lemma UpdIsSum(b: bv8, x: bv16)
    ensures UpdCrc(b, x) == Sum(Sum(CrcTab(((x >> 8) & 255) as nat), x << 8), b as bv16)
  {
    hide CrcTab, Sum;
    XorIsSum(CrcTab(((x >> 8) & 255) as nat), x << 8, b as bv16);
  }

  /** The table does eight steps at once. */
  lemma ByteStep(b: bv8, x: bv16)
    ensures UpdCrc(b, x) == ByteIn(x, BitsOfByte(b))
  {
    hide ByteIn, Step8, CrcTab, BitsOfByte, UpdCrc, Sum;
    GatherByte(x, b);
    Step8Table(x);
    UpdIsSum(b, x);
  }
}
