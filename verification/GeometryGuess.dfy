/** How `autopart` guesses heads and sectors from a partition table. */
module GeometryGuess {
  import opened Bits
  import opened Geometry

  /** One end of a partition: its address in three bytes, and its absolute sector. */
  datatype End = End(chs: Chs, sec: uint32)

  function LastSector(e: Entry): uint32 {
    (e.lowsec + e.size - 1) % WRAP
  }

  /** The ends in the order in which they are looked at, the last sector of an entry before its first. */
  function EndAt(table: seq<Entry>, i: nat): End
    requires |table| == NR_PARTITIONS && i < 2 * NR_PARTITIONS
  {
    var pe := table[i / 2];
    if i % 2 == 0 then End(Dos2Chs(pe.last), LastSector(pe))
    else End(Dos2Chs(pe.start), pe.lowsec)
  }

  predicate Fits(e: End, h: nat, s: nat) {
    Sector(e.chs, h, s) == e.sec
  }

  /** The first `n` ends agree with `h` heads and `s` sectors. */
  predicate Agrees(table: seq<Entry>, n: nat, h: nat, s: nat)
    requires |table| == NR_PARTITIONS && n <= 2 * NR_PARTITIONS
  {
    forall i :: 0 <= i < n ==> table[i / 2].used ==> Fits(EndAt(table, i), h, s)
  }

  predicate InRange(h: nat, s: nat) {
    1 <= h <= MAX_HEADS && 1 <= s <= MAX_SECS
  }

  predicate Possible(table: seq<Entry>, h: nat, s: nat)
    requires |table| == NR_PARTITIONS
  {
    InRange(h, s) && Agrees(table, 2 * NR_PARTITIONS, h, s)
  }

  /** `(h, s)` is the only possible geometry. */
  ghost predicate Only(table: seq<Entry>, h: nat, s: nat)
    requires |table| == NR_PARTITIONS
  {
    Possible(table, h, s) && forall h', s' :: Possible(table, h', s') ==> h' == h && s' == s
  }

  /** One more than the highest cylinder of the first `n` ends. */
  function Cylinders(table: seq<Entry>, n: nat): nat
    requires |table| == NR_PARTITIONS && n <= 2 * NR_PARTITIONS
  {
    if n == 0 then 0
    else
      var c := Cylinders(table, n - 1);
      if table[(n - 1) / 2].used && EndAt(table, n - 1).chs.cyl >= c then EndAt(table, n - 1).chs.cyl + 1 else c
  }

  /** An end that counts. */
  predicate CountsAt(table: seq<Entry>, i: nat)
    requires |table| == NR_PARTITIONS && i < 2 * NR_PARTITIONS
  {
    table[i / 2].used
  }

  lemma {:induction false} CylindersIs(table: seq<Entry>, n: nat)
    requires |table| == NR_PARTITIONS && n <= 2 * NR_PARTITIONS
    ensures forall i :: 0 <= i < n && CountsAt(table, i) ==> EndAt(table, i).chs.cyl < Cylinders(table, n)
    ensures Cylinders(table, n) > 0 ==>
      exists i :: 0 <= i < n && CountsAt(table, i) && EndAt(table, i).chs.cyl == Cylinders(table, n) - 1
  {
    hide EndAt;
    if n > 0 {
      CylindersIs(table, n - 1);
      if CountsAt(table, n - 1) && EndAt(table, n - 1).chs.cyl >= Cylinders(table, n - 1) {
        assert EndAt(table, n - 1).chs.cyl == Cylinders(table, n) - 1;
      } else if Cylinders(table, n) > 0 {
        var i :| 0 <= i < n - 1 && CountsAt(table, i) && EndAt(table, i).chs.cyl == Cylinders(table, n - 1) - 1;
        assert EndAt(table, i).chs.cyl == Cylinders(table, n) - 1;
      }
    }
  }

  // ----- The bit map of heads and sectors -----

  type Row = r: seq<byte> | |r| == 8 witness [0, 0, 0, 0, 0, 0, 0, 0]

  /** Row `h` of the map. */
  function RowOf(hs: array2<byte>, h: nat): Row
    requires hs.Length0 == 256 && hs.Length1 == 8 && h < 256
    reads hs
  {
    [hs[h, 0], hs[h, 1], hs[h, 2], hs[h, 3], hs[h, 4], hs[h, 5], hs[h, 6], hs[h, 7]]
  }

  /** Bit `s % 8` of byte `s / 8` of a row. */
  ghost predicate Has(r: Row, s: nat)
    requires s < 64
  {
    Bit(r[s / 8], s % 8)
  }

  /** A row whose first byte is 0 is given up; in any other, bit 0 says that a sector number is left. */
  ghost predicate RowOk(r: Row) {
    if r[0] == 0 then forall s :: 0 <= s < 64 ==> !Has(r, s)
    else Has(r, 0) && exists s :: 1 <= s < 64 && Has(r, s)
  }

  lemma {:induction false} TestBit(b: nat, k: nat)
    ensures And(b, Shl(1, k)) != 0 <==> Bit(b, k)
  {
    if k > 0 {
      TestBit(b / 2, k - 1);
      if b == 0 { ZeroBit(k); } else { ShlOnePositive(k); }
    }
  }

  lemma {:induction false} ShlOnePositive(k: nat)
    ensures Shl(1, k) > 0 && (k > 0 ==> Shl(1, k) / 2 == Shl(1, k - 1) && Shl(1, k) % 2 == 0)
  {
    if k > 0 { ShlOnePositive(k - 1); }
  }

  lemma ClearBit(b: byte, k: nat, j: nat)
    requires k < 8 && j < 8
    ensures And(b, Xor(0xFF, Shl(1, k))) < 256
    ensures Bit(And(b, Xor(0xFF, Shl(1, k))), j) <==> Bit(b, j) && j != k
  {
    hide And, Xor, Shl, Bit;
    AndBound(b, Xor(0xFF, Shl(1, k)));
    AndBit(b, Xor(0xFF, Shl(1, k)), j);
    XorBit(0xFF, Shl(1, k), j);
    FullByte(j);
    OneBit(k, j);
  }

  lemma FullByte(j: nat)
    requires j < 8
    ensures Bit(0xFF, j)
  {
    match j
    case 0 =>
    case 1 =>
    case 2 => assert Bit(63, 0);
    case 3 => assert Bit(31, 0) && Bit(63, 1);
    case 4 => assert Bit(15, 0) && Bit(31, 1) && Bit(63, 2);
    case 5 => assert Bit(7, 0) && Bit(15, 1) && Bit(31, 2) && Bit(63, 3);
    case 6 => assert Bit(3, 0) && Bit(7, 1) && Bit(15, 2) && Bit(31, 3) && Bit(63, 4);
    case _ => assert Bit(1, 0) && Bit(3, 1) && Bit(7, 2) && Bit(15, 3) && Bit(31, 4) && Bit(63, 5);
  }

  lemma {:induction false} OneBit(k: nat, j: nat)
    ensures Bit(Shl(1, k), j) <==> j == k
  {
    ShlBit(1, k, j);
    if j > k { ZeroBit(j - k - 1); }
  }

  /** Rule out for `h` heads the sector numbers that do not fit the end `e`. */
  method RuleOut(hs: array2<byte>, h: nat, e: End)
    requires hs.Length0 == 256 && hs.Length1 == 8 && 1 <= h <= MAX_HEADS
    requires RowOk(RowOf(hs, h)) && hs[h, 0] != 0
    modifies hs
    ensures RowOk(RowOf(hs, h))
    ensures forall s :: 1 <= s < 64 ==> Has(RowOf(hs, h), s) == (old(Has(RowOf(hs, h), s)) && Fits(e, h, s))
    ensures forall g :: 0 <= g < 256 && g != h ==> RowOf(hs, g) == old(RowOf(hs, g))
  {
    hide Has, Sector;
    var n, s := 0, 1;
    while s <= MAX_SECS
      invariant 1 <= s <= 64 && 0 <= n
      invariant Has(RowOf(hs, h), 0)
      invariant forall t :: 1 <= t < 64 ==>
        Has(RowOf(hs, h), t) == (old(Has(RowOf(hs, h), t)) && (t < s ==> Fits(e, h, t)))
      invariant n > 0 <==> exists t :: 1 <= t < s && Has(RowOf(hs, h), t)
      invariant forall g :: 0 <= g < 256 && g != h ==> RowOf(hs, g) == old(RowOf(hs, g))
    {
      if !Fits(e, h, s) {
        Clear(hs, h, s);
      }
      var found := Test(hs, h, s);
      if found {
        n := n + 1;
      }
      s := s + 1;
    }
    if n == 0 {
      GiveUp(hs, h);
    } else {
      NotZero(RowOf(hs, h));
    }
  }

  lemma NotZero(r: Row)
    requires Has(r, 0)
    ensures r[0] != 0
  {
  }

  /** Test the bit of `(h, s)`. */
  method Test(hs: array2<byte>, h: nat, s: nat) returns (b: bool)
    requires hs.Length0 == 256 && hs.Length1 == 8 && h < 256 && s < 64
    ensures b == Has(RowOf(hs, h), s)
  {
    hide Bit;
    TestBit(hs[h, s / 8], s % 8);
    b := And(hs[h, s / 8], Shl(1, s % 8)) != 0;
  }

  /** Clear the bit of `(h, s)`. */
  method Clear(hs: array2<byte>, h: nat, s: nat)
    requires hs.Length0 == 256 && hs.Length1 == 8 && h < 256 && s < 64
    modifies hs
    ensures forall t :: 0 <= t < 64 ==> Has(RowOf(hs, h), t) == (old(Has(RowOf(hs, h), t)) && t != s)
    ensures forall g :: 0 <= g < 256 && g != h ==> RowOf(hs, g) == old(RowOf(hs, g))
  {
    hide Bit;
    ghost var b := hs[h, s / 8];
    ClearBit(b, s % 8, 0);
    hs[h, s / 8] := And(hs[h, s / 8], Xor(0xFF, Shl(1, s % 8)));
    forall t | 0 <= t < 64
      ensures Has(RowOf(hs, h), t) == (old(Has(RowOf(hs, h), t)) && t != s)
    {
      if t / 8 == s / 8 { ClearBit(b, s % 8, t % 8); }
    }
  }

  /** No sector number is left for `h` heads. */
  method GiveUp(hs: array2<byte>, h: nat)
    requires hs.Length0 == 256 && hs.Length1 == 8 && h < 256
    requires forall t :: 1 <= t < 64 ==> !Has(RowOf(hs, h), t)
    modifies hs
    ensures hs[h, 0] == 0 && forall t :: 0 <= t < 64 ==> !Has(RowOf(hs, h), t)
    ensures forall g :: 0 <= g < 256 && g != h ==> RowOf(hs, g) == old(RowOf(hs, g))
  {
    hs[h, 0] := 0;
    forall t | 0 <= t < 64
      ensures !Has(RowOf(hs, h), t)
    {
      if t < 8 { ZeroBit(t); } else { assert old(!Has(RowOf(hs, h), t)); }
    }
  }

  /** A row that is right for `h` heads and the first `n` ends. */
  ghost predicate Right(r: Row, table: seq<Entry>, n: nat, h: nat)
    requires |table| == NR_PARTITIONS && n <= 2 * NR_PARTITIONS
  {
    RowOk(r) && forall s :: 1 <= s < 64 ==> Has(r, s) == Agrees(table, n, h, s)
  }

  /** The rows below `h0` are right for `n + 1` ends, the others for `n`. */
  ghost predicate Halfway(hs: array2<byte>, table: seq<Entry>, n: nat, h0: nat)
    requires hs.Length0 == 256 && hs.Length1 == 8 && |table| == NR_PARTITIONS && n < 2 * NR_PARTITIONS
    reads hs
  {
    forall h :: 1 <= h <= MAX_HEADS ==> Right(RowOf(hs, h), table, if h < h0 then n + 1 else n, h)
  }

  ghost predicate AllRight(hs: array2<byte>, table: seq<Entry>, n: nat)
    requires hs.Length0 == 256 && hs.Length1 == 8 && |table| == NR_PARTITIONS && n <= 2 * NR_PARTITIONS
    reads hs
  {
    forall h :: 1 <= h <= MAX_HEADS ==> Right(RowOf(hs, h), table, n, h)
  }

  lemma FullRow(r: Row, table: seq<Entry>, h: nat)
    requires |table| == NR_PARTITIONS && forall i :: 0 <= i < 8 ==> r[i] == 0xFF
    ensures Right(r, table, 0, h)
  {
    forall s | 0 <= s < 64
      ensures Has(r, s)
    {
      FullByte(s % 8);
    }
    assert Has(r, 1);
  }

  /** Everything is possible to begin with. */
  method AllPossible(ghost table: seq<Entry>) returns (hs: array2<byte>)
    requires |table| == NR_PARTITIONS
    ensures fresh(hs) && hs.Length0 == 256 && hs.Length1 == 8
    ensures AllRight(hs, table, 0)
  {
    hide Right;
    hs := new byte[256, 8];
    var h := 1;
    while h <= MAX_HEADS
      invariant 1 <= h <= 256
      invariant forall g :: 1 <= g < h ==> Right(RowOf(hs, g), table, 0, g)
    {
      ghost var rows := seq(h, g requires 0 <= g < h reads hs => RowOf(hs, g));
      var s := 0;
      while s < 8
        invariant 0 <= s <= 8
        invariant forall g :: 1 <= g < h ==> RowOf(hs, g) == rows[g]
        invariant forall i :: 0 <= i < s ==> hs[h, i] == 0xFF
      {
        hs[h, s] := 0xFF;
        s := s + 1;
      }
      FullRow(RowOf(hs, h), table, h);
      h := h + 1;
    }
  }

  lemma GivenUp(r: Row, table: seq<Entry>, i: nat, h: nat)
    requires |table| == NR_PARTITIONS && i < 2 * NR_PARTITIONS && Right(r, table, i, h) && r[0] == 0
    ensures Right(r, table, i + 1, h)
  {
    hide Has, Fits;
  }

  lemma OneEndMore(r: Row, r': Row, table: seq<Entry>, i: nat, h: nat)
    requires |table| == NR_PARTITIONS && i < 2 * NR_PARTITIONS && Right(r, table, i, h) && RowOk(r')
    requires table[i / 2].used && forall s :: 1 <= s < 64 ==> Has(r', s) == (Has(r, s) && Fits(EndAt(table, i), h, s))
    ensures Right(r', table, i + 1, h)
  {
    hide Has, Fits, EndAt;
  }

  /** Take the `i`-th end into account. */
  method TakeEnd(hs: array2<byte>, table: seq<Entry>, i: nat)
    requires hs.Length0 == 256 && hs.Length1 == 8 && |table| == NR_PARTITIONS && i < 2 * NR_PARTITIONS
    requires AllRight(hs, table, i) && table[i / 2].used
    modifies hs
    ensures AllRight(hs, table, i + 1)
  {
    hide Right, EndAt, Fits, Has, RowOk;
    var h := 1;
    while h <= MAX_HEADS
      invariant 1 <= h <= 256
      invariant Halfway(hs, table, i, h)
    {
      ghost var r := RowOf(hs, h);
      if hs[h, 0] == 0 {
        GivenUp(r, table, i, h);
      } else {
        RightOk(r, table, i, h);
        ghost var rows := seq(256, g requires 0 <= g < 256 reads hs => RowOf(hs, g));
        RuleOut(hs, h, EndAt(table, i));
        OneEndMore(r, RowOf(hs, h), table, i, h);
        assert forall g :: 1 <= g <= MAX_HEADS && g != h ==> RowOf(hs, g) == rows[g];
      }
      h := h + 1;
    }
  }

  lemma RightOk(r: Row, table: seq<Entry>, n: nat, h: nat)
    requires |table| == NR_PARTITIONS && n <= 2 * NR_PARTITIONS && Right(r, table, n, h)
    ensures RowOk(r)
  {
    hide RowOk;
  }

  lemma Unused(r: Row, table: seq<Entry>, i: nat, h: nat)
    requires |table| == NR_PARTITIONS && i < 2 * NR_PARTITIONS && Right(r, table, i, h) && !table[i / 2].used
    ensures Right(r, table, i + 1, h)
  {
    hide Has, Fits, EndAt, RowOk;
  }

  /**
   Guess heads and sectors. A pair is returned exactly if it is the only possible one; otherwise both
   are 0, and so is the number of cylinders if there is more than one.
   */
  method GuessGeometry(table: seq<Entry>) returns (cyls: nat, heads: nat, secs: nat)
    requires |table| == NR_PARTITIONS
    ensures forall h, s :: Only(table, h, s) ==> heads == h && secs == s && cyls == Cylinders(table, 2 * NR_PARTITIONS)
    ensures heads != 0 || secs != 0 ==> Only(table, heads, secs)
    ensures heads == 0 ==>
      cyls == if exists h, s :: Possible(table, h, s) then 0 else Cylinders(table, 2 * NR_PARTITIONS)
  {
    hide Right, EndAt;
    cyls, heads, secs := 0, 0, 0;
    var hs := AllPossible(table);
    var i := 0;
    while i < 2 * NR_PARTITIONS
      invariant i <= 2 * NR_PARTITIONS && cyls == Cylinders(table, i) && AllRight(hs, table, i)
    {
      var pe := table[i / 2];
      if pe.used {
        var e := EndAt(table, i);
        if e.chs.cyl >= cyls { cyls := e.chs.cyl + 1; }
        TakeEnd(hs, table, i);
      } else {
        forall h | 1 <= h <= MAX_HEADS
          ensures Right(RowOf(hs, h), table, i + 1, h)
        {
          Unused(RowOf(hs, h), table, i, h);
        }
      }
      i := i + 1;
    }
    i, heads, secs := Count(hs, table);
    CountTells(table, i, heads, secs);
    if i > 1 {
      cyls, heads, secs := 0, 0, 0;
    }
  }

  /** `(h, s)` comes before `(h0, s0)` in the order of the last loop. */
  predicate Before(h: nat, s: nat, h0: nat, s0: nat) {
    h < h0 || (h == h0 && s < s0)
  }

  /** What is known of the pairs before `(h0, s0)` when `n` of them have been counted, `(h, s)` last. */
  ghost predicate Counted(table: seq<Entry>, n: nat, h: nat, s: nat, h0: nat, s0: nat)
    requires |table| == NR_PARTITIONS
  {
    if n == 0 then
      h == 0 && s == 0 && forall g, t :: Before(g, t, h0, s0) ==> !Possible(table, g, t)
    else
      && Possible(table, h, s) && Before(h, s, h0, s0)
      && if n == 1 then forall g, t :: Before(g, t, h0, s0) && Possible(table, g, t) ==> g == h && t == s
         else exists g, t :: Possible(table, g, t) && !(g == h && t == s)
  }

  lemma CountedNot(table: seq<Entry>, n: nat, h: nat, s: nat, h0: nat, s0: nat, h1: nat, s1: nat)
    requires |table| == NR_PARTITIONS && Counted(table, n, h, s, h0, s0)
    requires forall g, t :: Before(g, t, h0, s0) ==> Before(g, t, h1, s1)
    requires forall g, t :: Before(g, t, h1, s1) && !Before(g, t, h0, s0) ==> !Possible(table, g, t)
    ensures Counted(table, n, h, s, h1, s1)
  {
    hide Possible;
  }

  lemma CountedOne(table: seq<Entry>, n: nat, h: nat, s: nat, h0: nat, s0: nat)
    requires |table| == NR_PARTITIONS && Counted(table, n, h, s, h0, s0) && Possible(table, h0, s0)
    ensures Counted(table, n + 1, h0, s0, h0, s0 + 1)
  {
    hide Possible;
  }

  lemma CountTells(table: seq<Entry>, n: nat, h: nat, s: nat)
    requires |table| == NR_PARTITIONS && Counted(table, n, h, s, 256, 0)
    ensures n == 0 ==> h == 0 && s == 0 && forall g, t :: !Possible(table, g, t)
    ensures n == 1 ==> Only(table, h, s)
    ensures n > 1 ==> (exists g, t :: Possible(table, g, t)) && forall g, t :: !Only(table, g, t)
    ensures forall g, t :: Possible(table, g, t) ==> g > 0
  {
    hide Agrees;
    assert forall g, t :: Possible(table, g, t) ==> Before(g, t, 256, 0);
  }

  lemma HasPossible(r: Row, table: seq<Entry>, h: nat, s: nat)
    requires |table| == NR_PARTITIONS && Right(r, table, 2 * NR_PARTITIONS, h) && 1 <= h <= MAX_HEADS && 1 <= s < 64
    ensures Has(r, s) == Possible(table, h, s) && (r[0] == 0 ==> !Possible(table, h, s))
  {
    hide Has, Agrees;
  }

  /** See how many remain; the last one is kept. */
  method Count(hs: array2<byte>, table: seq<Entry>) returns (n: nat, heads: nat, secs: nat)
    requires hs.Length0 == 256 && hs.Length1 == 8 && |table| == NR_PARTITIONS
    requires AllRight(hs, table, 2 * NR_PARTITIONS)
    ensures Counted(table, n, heads, secs, 256, 0)
  {
    hide Counted, Right, Has, Agrees;
    n, heads, secs := 0, 0, 0;
    NoneYet(table);
    var h := 1;
    while h <= MAX_HEADS
      invariant 1 <= h <= 256
      invariant Counted(table, n, heads, secs, h, 0)
    {
      ghost var r := RowOf(hs, h);
      if hs[h, 0] != 0 {
        CountedNot(table, n, heads, secs, h, 0, h, 1);
        var s := 1;
        while s <= MAX_SECS
          invariant 1 <= s <= 64
          invariant Counted(table, n, heads, secs, h, s)
        {
          HasPossible(r, table, h, s);
          var found := Test(hs, h, s);
          if found {
            CountedOne(table, n, heads, secs, h, s);
            n, heads, secs := n + 1, h, s;
          } else {
            CountedNot(table, n, heads, secs, h, s, h, s + 1);
          }
          s := s + 1;
        }
        CountedNot(table, n, heads, secs, h, 64, h + 1, 0);
      } else {
        forall t | 1 <= t < 64
          ensures !Possible(table, h, t)
        {
          HasPossible(r, table, h, t);
        }
        CountedNot(table, n, heads, secs, h, 0, h + 1, 0);
      }
      h := h + 1;
    }
  }

  lemma NoneYet(table: seq<Entry>)
    requires |table| == NR_PARTITIONS
    ensures Counted(table, 0, 0, 0, 1, 0)
  {
  }

  // ----- Soundness -----

  /** The addresses of the used entries were written for `h` heads and `s` sectors. */
  predicate WrittenFor(table: seq<Entry>, h: nat, s: nat)
    requires |table| == NR_PARTITIONS && h > 0 && s > 0
  {
    forall k :: 0 <= k < NR_PARTITIONS && table[k].used ==>
      table[k].start == Abs2Dos(table[k].lowsec, h, s) && table[k].last == Abs2Dos(LastSector(table[k]), h, s)
  }

  /** No used entry reaches beyond cylinder 1023. */
  predicate Addressable(table: seq<Entry>, h: nat, s: nat)
    requires |table| == NR_PARTITIONS && h > 0 && s > 0
  {
    forall k :: 0 <= k < NR_PARTITIONS && table[k].used ==>
      Place(table[k].lowsec, h, s).cyl < 1024 && Place(LastSector(table[k]), h, s).cyl < 1024
  }

  /**
   The geometry the addresses were written for is ruled out exactly if an entry reaches beyond
   cylinder 1023. While none does, the guess is that geometry or nothing.
   */
  lemma TruthNotRuledOut(table: seq<Entry>, h: nat, s: nat)
    requires |table| == NR_PARTITIONS && InRange(h, s) && WrittenFor(table, h, s)
    ensures Possible(table, h, s) <==> Addressable(table, h, s)
    ensures Addressable(table, h, s) ==> forall h', s' :: Only(table, h', s') ==> h' == h && s' == s
  {
    hide Abs2Dos, Dos2Chs, Place, Sector;
    forall k | 0 <= k < NR_PARTITIONS && table[k].used
      ensures Fits(EndAt(table, 2 * k), h, s) <==> Place(LastSector(table[k]), h, s).cyl < 1024
      ensures Fits(EndAt(table, 2 * k + 1), h, s) <==> Place(table[k].lowsec, h, s).cyl < 1024
    {
      AddressSurvives(table[k].lowsec, h, s);
      AddressSurvives(LastSector(table[k]), h, s);
    }
    AgreesByEntry(table, h, s);
  }

  /** An input on which it is: one partition that ends in the first sector of cylinder 1024. */
  lemma TruthRuledOut()
    ensures var e := Entry(true, Abs2Dos(63, 16, 63), Abs2Dos(1032192, 16, 63), 63, 1032130);
      var table := [e, e.(used := false), e.(used := false), e.(used := false)];
      WrittenFor(table, 16, 63) && !Possible(table, 16, 63)
  {
    hide Abs2Dos, Dos2Chs, Sector;
    var e := Entry(true, Abs2Dos(63, 16, 63), Abs2Dos(1032192, 16, 63), 63, 1032130);
    var table := [e, e.(used := false), e.(used := false), e.(used := false)];
    TruthNotRuledOut(table, 16, 63);
    assert Place(LastSector(table[0]), 16, 63).cyl == 1024;
  }

  lemma AgreesByEntry(table: seq<Entry>, h: nat, s: nat)
    requires |table| == NR_PARTITIONS
    ensures Agrees(table, 2 * NR_PARTITIONS, h, s) <==>
      forall k :: 0 <= k < NR_PARTITIONS && table[k].used ==>
        Fits(EndAt(table, 2 * k), h, s) && Fits(EndAt(table, 2 * k + 1), h, s)
  {
    hide Fits, EndAt;
    if Agrees(table, 2 * NR_PARTITIONS, h, s) {
      forall k | 0 <= k < NR_PARTITIONS && table[k].used
        ensures Fits(EndAt(table, 2 * k), h, s) && Fits(EndAt(table, 2 * k + 1), h, s)
      {
        assert (2 * k) / 2 == k && (2 * k + 1) / 2 == k;
      }
    }
  }
}
