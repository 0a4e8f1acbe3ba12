/**
 The probe sequence of the compressor's open-addressed table visits different slots, because
 the table size is prime; so a table that is not full always ends the search.
 */
module LzwHash {
  import opened Links

  const HSIZE: nat := 69001

  /** None of the eight numbers from `d` on divides HSIZE. */
  predicate NoneOfEight(d: nat)
    requires d > 0
  {
    && HSIZE % d != 0 && HSIZE % (d + 1) != 0 && HSIZE % (d + 2) != 0 && HSIZE % (d + 3) != 0
    && HSIZE % (d + 4) != 0 && HSIZE % (d + 5) != 0 && HSIZE % (d + 6) != 0 && HSIZE % (d + 7) != 0
  }

  predicate NoDivisorIn(lo: nat, blocks: nat)
    requires lo > 0
    decreases blocks
  {
    blocks == 0 || (NoneOfEight(lo) && NoDivisorIn(lo + 8, blocks - 1))
  }

  lemma {:induction false} NoDivisorAt(lo: nat, blocks: nat, d: nat)
    requires 0 < lo <= d < lo + 8 * blocks && NoDivisorIn(lo, blocks)
    ensures HSIZE % d != 0
    decreases blocks
  {
    if d >= lo + 8 {
      NoDivisorAt(lo + 8, blocks - 1, d);
    } else {
      var k := d - lo;
      assert k == 0 || k == 1 || k == 2 || k == 3 || k == 4 || k == 5 || k == 6 || k == 7;
    }
  }

  lemma NoDivisorBelow90()
    ensures NoDivisorIn(2, 11)
  {
  }

  lemma NoDivisorBelow178()
    ensures NoDivisorIn(90, 11)
  {
  }

  lemma NoDivisorBelow266()
    ensures NoDivisorIn(178, 11)
  {
  }

  lemma NoSmallDivisor(d: nat)
    requires 2 <= d < 266
    ensures HSIZE % d != 0
  {
    if d < 90 {
      NoDivisorBelow90();
      NoDivisorAt(2, 11, d);
    } else if d < 178 {
      NoDivisorBelow178();
      NoDivisorAt(90, 11, d);
    } else {
      NoDivisorBelow266();
      NoDivisorAt(178, 11, d);
    }
  }

  lemma ProductBounds(q: nat, d: nat)
    ensures q >= 263 && d >= 263 ==> q * d >= 69169
    ensures q <= 1 ==> q * d <= d
  {
    if q >= 263 && d >= 263 {
      assert q * d == 263 * d + (q - 263) * d;
    }
  }

  lemma Quotient(n: nat, q: nat, d: nat)
    requires 0 < d && n == q * d
    ensures n % d == 0
  {
    var e := q - n / d;
    assert n == d * (n / d) + n % d;
    assert e * d == q * d - d * (n / d);
    assert 0 <= e * d < d;
    if e > 0 {
      assert e * d == d + (e - 1) * d;
    }
  }

  /** HSIZE is prime: it is no product of two smaller numbers. */
  lemma TableSizeIsPrime(q: nat, d: nat)
    requires 2 <= d < HSIZE
    ensures q * d != HSIZE
  {
    if q * d == HSIZE {
      ProductBounds(q, d);
      Quotient(HSIZE, q, d);
      Quotient(HSIZE, d, q);
      NoSmallDivisor(if d < 263 then d else q);
    }
  }

  lemma Remainder(m: int, disp: int, t: int, q: int, r: int)
    requires 69001 == q * m + r && m * disp == 69001 * t
    ensures r * disp == 69001 * (disp - q * t)
  {
    calc {
      r * disp;
      (69001 - q * m) * disp;
      69001 * disp - q * m * disp;
      69001 * disp - q * (m * disp);
      69001 * disp - q * (69001 * t);
      69001 * (disp - q * t);
    }
  }

  /** A nonzero step taken fewer than HSIZE times is never a multiple of HSIZE. */
  lemma {:induction false} StepsDiffer(m: nat, disp: nat, t: int)
    requires 0 < m < HSIZE && 0 < disp < HSIZE
    ensures m * disp != 69001 * t
    decreases m
  {
    if m * disp == 69001 * t && m > 1 {
      var q, r := HSIZE / m, HSIZE % m;
      assert HSIZE == q * m + r;
      TableSizeIsPrime(q, m);
      Remainder(m, disp, t, q, r);
      StepsDiffer(r, disp, disp - q * t);
    }
  }

  /** The slot looked at after `k` secondary probes: step down by `disp`, wrapping below zero. */
  function Slot(start: nat, disp: nat, k: nat): (r: nat)
    requires start < HSIZE && disp < HSIZE
    ensures r < HSIZE
  {
    if k == 0 then start
    else
      var s := Slot(start, disp, k - 1);
      if s < disp then s - disp + HSIZE else s - disp
  }

  lemma NextSlot(start: nat, disp: nat, k: nat)
    requires start < HSIZE && disp < HSIZE && k > 0
    ensures Slot(start, disp, k)
      == var s := Slot(start, disp, k - 1); if s < disp then s - disp + HSIZE else s - disp
  {
  }

  lemma {:induction false} SlotForm(start: nat, disp: nat, k: nat) returns (wraps: nat)
    requires start < HSIZE && disp < HSIZE
    ensures Slot(start, disp, k) == start - k * disp + 69001 * wraps
  {
    if k == 0 {
      wraps := 0;
    } else {
      wraps := SlotForm(start, disp, k - 1);
      Distribute(k - 1, 1, disp);
      if Slot(start, disp, k - 1) < disp {
        wraps := wraps + 1;
      }
    }
  }

  lemma Distribute(a: int, b: int, c: int)
    ensures (a + b) * c == a * c + b * c
  {
  }

  lemma SlotsDiffer(start: nat, disp: nat, j: nat, m: nat)
    requires start < HSIZE && 0 < disp < HSIZE && 0 < m < HSIZE
    ensures Slot(start, disp, j) != Slot(start, disp, j + m)
  {
    var u := SlotForm(start, disp, j);
    var v := SlotForm(start, disp, j + m);
    Distribute(j, m, disp);
    StepsDiffer(m, disp, v - u);
    Differ(start, j * disp, (j + m) * disp, m * disp, u, v);
  }

  lemma Differ(start: int, x: int, y: int, z: int, u: int, v: int)
    requires z == y - x && z != 69001 * (v - u)
    ensures start - x + 69001 * u != start - y + 69001 * v
  {
  }

  /**
   If the first `n` probes all meet occupied slots, and occupied slots carry different codes
   between `lo` and `hi`, then `n` is at most the number of codes.
   */
  lemma ProbesBounded(start: nat, disp: nat, n: nat, htab: seq<int>, codetab: seq<int>, lo: nat, hi: nat)
    requires start < HSIZE && 0 < disp < HSIZE && n <= HSIZE && lo <= hi
    requires |htab| == HSIZE && |codetab| == HSIZE
    requires forall i :: 0 <= i < HSIZE && htab[i] >= 0 ==> lo <= codetab[i] < hi
    requires forall i, j :: 0 <= i < j < HSIZE && htab[i] >= 0 && htab[j] >= 0 ==> codetab[i] != codetab[j]
    requires forall k :: 0 <= k < n ==> htab[Slot(start, disp, k)] >= 0
    ensures n <= hi - lo
  {
    var s: seq<nat> := seq(n, (k: int) => if 0 <= k < n then codetab[Slot(start, disp, k)] - lo else 0);
    forall i, j | 0 <= i < j < |s|
      ensures s[i] != s[j]
    {
      SlotsDiffer(start, disp, i, j - i);
      var a, b := Slot(start, disp, i), Slot(start, disp, j);
      if a < b { assert codetab[a] != codetab[b]; } else { assert codetab[b] != codetab[a]; }
    }
    Fits(s, hi - lo);
  }
}
