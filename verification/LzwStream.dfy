/**
 Where the codes of a .Z stream sit. The width of a code follows the number of dictionary
 entries, so each code is described together with that number; what the codes mean is the
 business of module LzwCodes.
 */
module LzwStream {
  import opened Bits

  const INIT_BITS: nat := 9
  const BITS: nat := 16
  const FIRST: nat := 257
  const CLEAR: nat := 256

  /** The two settings a stream is written with; they make up the third header byte. */
  datatype Params = Params(maxBits: nat, block: bool) {
    predicate Supported() {
      INIT_BITS <= maxBits <= BITS
    }

    /** One more than the largest code that is ever assigned. */
    function Limit(): nat {
      Pow2(maxBits)
    }

    function FirstFree(): nat {
      if block then FIRST else 256
    }
  }

  function MaxCode(nBits: nat): nat {
    Pow2(nBits) - 1
  }

  /** The full width admits one value more than its bits can hold. */
  function CapOf(p: Params, nBits: nat): nat {
    if nBits == p.maxBits then p.Limit() else MaxCode(nBits)
  }

  /** A code, whether it clears the dictionary, and the number of entries once it is read. */
  datatype Item = Item(code: nat, clear: bool, free: nat)

  /** Position of the next code: `off` bits into the chunk that starts at byte `base`. */
  datatype Cursor = Cursor(base: nat, off: nat, nBits: nat, maxCode: nat)

  function Position(c: Cursor): nat {
    8 * c.base + c.off
  }

  /** A chunk holds eight codes of one width; it is padded to its full size when the width changes. */
  function Advance(p: Params, c: Cursor, item: Item): Cursor {
    if item.clear then Cursor(c.base + c.nBits, 0, INIT_BITS, MaxCode(INIT_BITS))
    else if item.free > c.maxCode then Cursor(c.base + c.nBits, 0, c.nBits + 1, CapOf(p, c.nBits + 1))
    else if c.off + c.nBits == 8 * c.nBits then c.(base := c.base + c.nBits, off := 0)
    else c.(off := c.off + c.nBits)
  }

  /** The cursor before item `k`. */
  function Layout(p: Params, items: seq<Item>, k: nat): Cursor
    requires k <= |items|
  {
    if k == 0 then Cursor(0, 0, INIT_BITS, MaxCode(INIT_BITS))
    else Advance(p, Layout(p, items, k - 1), items[k - 1])
  }

  function Free(p: Params, items: seq<Item>, k: nat): nat
    requires k <= |items|
  {
    if k == 0 then p.FirstFree() else items[k - 1].free
  }

  ghost predicate StreamBit(stream: seq<byte>, i: nat)
    requires i < 8 * |stream|
  {
    Bit(stream[i / 8], i % 8)
  }

  /** The low bits of `code`, least significant first, stand at the cursor. */
  ghost predicate CodeAt(stream: seq<byte>, c: Cursor, code: nat) {
    && Position(c) + c.nBits <= 8 * |stream|
    && forall b :: 0 <= b < c.nBits ==> StreamBit(stream, Position(c) + b) == Bit(code, b)
  }

  ghost predicate HeldAt(p: Params, stream: seq<byte>, items: seq<Item>, k: nat)
    requires k < |items|
  {
    CodeAt(stream, Layout(p, items, k), items[k].code)
  }

  ghost predicate Placed(p: Params, stream: seq<byte>, items: seq<Item>) {
    forall k :: 0 <= k < |items| ==> HeldAt(p, stream, items, k)
  }

  /** The dictionary grows by at most one entry a code, and every code fits its width. */
  ghost predicate PacedAt(p: Params, items: seq<Item>, k: nat)
    requires k < |items|
  {
    && items[k].free <= p.Limit()
    && items[k].free <= (if items[k].clear then FIRST else Free(p, items, k) + 1)
    && items[k].code < Pow2(Layout(p, items, k).nBits)
  }

  ghost predicate Paced(p: Params, items: seq<Item>) {
    forall k :: 0 <= k < |items| ==> PacedAt(p, items, k)
  }

  function EndOf(c: Cursor): nat {
    c.base + (c.off + 7) / 8
  }

  ghost predicate WireFormat(p: Params, stream: seq<byte>, items: seq<Item>) {
    && Paced(p, items)
    && |stream| == EndOf(Layout(p, items, |items|))
    && Placed(p, stream, items)
  }

  function Min(a: nat, b: nat): nat {
    if a <= b then a else b
  }

  /** How many bytes of the chunk at `c` the stream holds. */
  function ChunkLength(stream: seq<byte>, c: Cursor): nat {
    if c.base <= |stream| then Min(c.nBits, |stream| - c.base) else 0
  }

  /** The reader finds no further code: no chunk is left, or what is left of one is too short. */
  predicate Ended(stream: seq<byte>, c: Cursor) {
    if c.off == 0 then c.base >= |stream| else c.off + c.nBits > 8 * ChunkLength(stream, c)
  }

  /** These items are read from the stream, and no more; whatever bits are left over do not matter. */
  ghost predicate Carries(p: Params, stream: seq<byte>, items: seq<Item>) {
    Paced(p, items) && Placed(p, stream, items) && Ended(stream, Layout(p, items, |items|))
  }

  // ----- Consequences of the definitions -----

  /** Fewer than eight codes of `n` bits. */
  ghost predicate EighthOf(off: nat, n: nat) {
    || off == 0 || off == n || off == 2 * n || off == 3 * n
    || off == 4 * n || off == 5 * n || off == 6 * n || off == 7 * n
  }

  ghost predicate CursorOk(p: Params, c: Cursor, free: nat) {
    && INIT_BITS <= c.nBits <= BITS
    && EighthOf(c.off, c.nBits)
    && free <= p.Limit()
    && free <= c.maxCode
    && (if c.nBits == p.maxBits && p.maxBits > INIT_BITS then c.maxCode == p.Limit()
        else c.maxCode == MaxCode(c.nBits) && (c.nBits < p.maxBits || (p.maxBits == INIT_BITS && c.nBits <= 10)))
  }

  lemma Widths()
    ensures Pow2(8) == 256 && Pow2(9) == 512 && Pow2(10) == 1024 && Pow2(16) == 65536
  {
    assert Pow2(4) == 16 && Pow2(8) == 256;
    assert Pow2(12) == 4096 && Pow2(16) == 65536;
  }

  lemma AdvanceKeepsOk(p: Params, c: Cursor, item: Item, free: nat)
    requires p.Supported() && CursorOk(p, c, free)
    requires item.free <= p.Limit() && item.free <= (if item.clear then FIRST else free + 1)
    ensures CursorOk(p, Advance(p, c, item), item.free)
    ensures Position(Advance(p, c, item)) >= Position(c) + c.nBits
    ensures c.off + c.nBits <= 8 * c.nBits
  {
    Widths();
    if !item.clear && item.free > c.maxCode {
      assert c.nBits != p.maxBits || p.maxBits == INIT_BITS;
      assert item.free <= Pow2(c.nBits) <= 2 * Pow2(c.nBits) - 1;
    }
  }

  /** The bookkeeping of widths is consistent after any paced prefix. */
  lemma {:induction false} LayoutOk(p: Params, items: seq<Item>, k: nat)
    requires p.Supported() && Paced(p, items) && k <= |items|
    ensures CursorOk(p, Layout(p, items, k), Free(p, items, k))
  {
    if k == 0 {
      Widths();
      Pow2Monotone(INIT_BITS, p.maxBits);
    } else {
      LayoutOk(p, items, k - 1);
      assert PacedAt(p, items, k - 1);
      AdvanceKeepsOk(p, Layout(p, items, k - 1), items[k - 1], Free(p, items, k - 1));
    }
  }

  lemma {:induction false} LayoutMonotone(p: Params, items: seq<Item>, j: nat, k: nat)
    requires p.Supported() && Paced(p, items) && j < k <= |items|
    ensures Position(Layout(p, items, j)) + Layout(p, items, j).nBits <= Position(Layout(p, items, k))
    decreases k
  {
    LayoutOk(p, items, k - 1);
    assert PacedAt(p, items, k - 1);
    hide Paced, PacedAt, Free;
    AdvanceKeepsOk(p, Layout(p, items, k - 1), items[k - 1], Free(p, items, k - 1));
    if j < k - 1 {
      LayoutMonotone(p, items, j, k - 1);
    }
  }

  lemma {:induction false} LayoutOfPrefix(p: Params, items: seq<Item>, item: Item, k: nat)
    requires k <= |items|
    ensures Layout(p, items + [item], k) == Layout(p, items, k)
    ensures Free(p, items + [item], k) == Free(p, items, k)
  {
    if k > 0 {
      LayoutOfPrefix(p, items, item, k - 1);
    }
  }

  lemma {:induction false} LayoutOfTake(p: Params, items: seq<Item>, n: nat, k: nat)
    requires k <= n <= |items|
    ensures Layout(p, items[..n], k) == Layout(p, items, k)
  {
    if k > 0 {
      LayoutOfTake(p, items, n, k - 1);
    }
  }

  lemma PacedSnoc(p: Params, items: seq<Item>, item: Item)
    requires p.Supported() && Paced(p, items)
    requires item.free <= p.Limit() && item.free <= (if item.clear then FIRST else Free(p, items, |items|) + 1)
    requires item.code < Pow2(Layout(p, items, |items|).nBits)
    ensures Paced(p, items + [item])
    ensures Layout(p, items + [item], |items| + 1) == Advance(p, Layout(p, items, |items|), item)
  {
    forall k | 0 <= k < |items| + 1
      ensures PacedAt(p, items + [item], k)
    {
      LayoutOfPrefix(p, items, item, k);
      if k < |items| {
        assert PacedAt(p, items, k);
      }
    }
    LayoutOfPrefix(p, items, item, |items|);
  }

  /** The streams agree on their first `n` bits. */
  ghost predicate SameBits(s: seq<byte>, t: seq<byte>, n: nat)
  {
    n <= 8 * |s| && n <= 8 * |t| && forall i :: 0 <= i < n ==> StreamBit(s, i) == StreamBit(t, i)
  }

  lemma CodeAtFrame(s: seq<byte>, t: seq<byte>, n: nat, c: Cursor, code: nat)
    requires SameBits(s, t, n) && Position(c) + c.nBits <= n && CodeAt(s, c, code)
    ensures CodeAt(t, c, code)
  {
    forall b | 0 <= b < c.nBits
      ensures StreamBit(t, Position(c) + b) == Bit(code, b)
    {
      assert StreamBit(s, Position(c) + b) == Bit(code, b);
    }
  }

  /** What the writer needs to know when it adds one code. */
  lemma NextItem(p: Params, items: seq<Item>, item: Item)
    requires p.Supported() && Paced(p, items)
    requires item.free <= p.Limit() && item.free <= (if item.clear then FIRST else Free(p, items, |items|) + 1)
    requires item.code < Pow2(Layout(p, items, |items|).nBits)
    ensures Paced(p, items + [item])
    ensures Layout(p, items + [item], |items| + 1) == Advance(p, Layout(p, items, |items|), item)
    ensures INIT_BITS <= Layout(p, items, |items|).nBits <= BITS
    ensures Layout(p, items, |items|).off + Layout(p, items, |items|).nBits <= 8 * Layout(p, items, |items|).nBits
  {
    PacedSnoc(p, items, item);
    LayoutOk(p, items, |items|);
    AdvanceKeepsOk(p, Layout(p, items, |items|), item, Free(p, items, |items|));
  }

  /** Whether items are in place depends only on the bits before the final cursor. */
  lemma PlacedFrame(p: Params, s: seq<byte>, t: seq<byte>, items: seq<Item>)
    requires p.Supported() && Paced(p, items) && Placed(p, s, items)
    requires SameBits(s, t, Position(Layout(p, items, |items|)))
    ensures Placed(p, t, items)
  {
    forall k | 0 <= k < |items|
      ensures HeldAt(p, t, items, k)
    {
      assert HeldAt(p, s, items, k);
      LayoutMonotone(p, items, k, |items|);
      CodeAtFrame(s, t, Position(Layout(p, items, |items|)), Layout(p, items, k), items[k].code);
    }
  }

  lemma BitOfJoin(a: seq<byte>, b: seq<byte>, i: nat)
    requires i < 8 * (|a| + |b|)
    ensures StreamBit(a + b, i) == if i < 8 * |a| then StreamBit(a, i) else StreamBit(b, i - 8 * |a|)
  {
    if i >= 8 * |a| {
      assert (i - 8 * |a|) / 8 == i / 8 - |a| && (i - 8 * |a|) % 8 == i % 8;
    }
  }

  lemma PlacedSnoc(p: Params, t: seq<byte>, items: seq<Item>, item: Item)
    requires Placed(p, t, items) && CodeAt(t, Layout(p, items, |items|), item.code)
    ensures Placed(p, t, items + [item])
  {
    forall k | 0 <= k < |items| + 1
      ensures HeldAt(p, t, items + [item], k)
    {
      LayoutOfPrefix(p, items, item, k);
      if k < |items| {
        assert HeldAt(p, t, items, k);
      }
    }
  }

  /** A code in the buffer is the same code behind what was written before. */
  lemma CodeAtJoin(body: seq<byte>, buf: seq<byte>, c: Cursor, code: nat)
    requires |body| == c.base && CodeAt(buf, c.(base := 0, maxCode := 0), code)
    ensures CodeAt(body + buf, c, code)
  {
    var c0 := c.(base := 0, maxCode := 0);
    forall b | 0 <= b < c.nBits
      ensures StreamBit(body + buf, Position(c) + b) == Bit(code, b)
    {
      assert StreamBit(buf, Position(c0) + b) == Bit(code, b);
      BitOfJoin(body, buf, Position(c) + b);
    }
  }

  /** The next code takes its place in the buffer without disturbing the earlier ones. */
  lemma PlaceNext(p: Params, body: seq<byte>, was: seq<byte>, now: seq<byte>, items: seq<Item>, item: Item)
    requires p.Supported() && Paced(p, items) && Placed(p, body + was, items)
    requires |body| == Layout(p, items, |items|).base
    requires SameBits(was, now, Layout(p, items, |items|).off)
    requires CodeAt(now, Layout(p, items, |items|).(base := 0, maxCode := 0), item.code)
    ensures Placed(p, body + now, items + [item])
  {
    var c := Layout(p, items, |items|);
    forall i | 0 <= i < Position(c)
      ensures StreamBit(body + was, i) == StreamBit(body + now, i)
    {
      BitOfJoin(body, was, i);
      BitOfJoin(body, now, i);
    }
    PlacedFrame(p, body + was, body + now, items);
    CodeAtJoin(body, now, c, item.code);
    PlacedSnoc(p, body + now, items, item);
  }

  /** Writing out the first `n` bytes of the buffer keeps every code in its place. */
  lemma FlushKeepsPlaced(p: Params, body: seq<byte>, buf: seq<byte>, n: nat, items: seq<Item>)
    requires p.Supported() && Paced(p, items) && Placed(p, body + buf, items)
    requires n <= |buf| && Position(Layout(p, items, |items|)) <= 8 * (|body| + n)
    ensures Placed(p, body + buf[..n], items)
    ensures Placed(p, body + buf[..n] + buf, items)
  {
    var s, t, u := body + buf, body + buf[..n], body + buf[..n] + buf;
    forall i | 0 <= i < 8 * |t|
      ensures StreamBit(s, i) == StreamBit(t, i) == StreamBit(u, i)
    {
      assert s[i / 8] == t[i / 8] == u[i / 8];
    }
    PlacedFrame(p, s, t, items);
    PlacedFrame(p, s, u, items);
  }

  lemma SameCode(stream: seq<byte>, c: Cursor, x: nat, y: nat)
    requires CodeAt(stream, c, x) && CodeAt(stream, c, y)
    requires x < Pow2(c.nBits) && y < Pow2(c.nBits)
    ensures x == y
  {
    forall b | 0 <= b < c.nBits
      ensures Bit(x, b) == Bit(y, b)
    {
      assert StreamBit(stream, Position(c) + b) == Bit(x, b);
    }
    BitsDetermine(x, y, c.nBits);
  }

  /** What a writer leaves is read as it was written: the padding is too short for one more code. */
  lemma WrittenIsCarried(p: Params, stream: seq<byte>, items: seq<Item>)
    requires p.Supported() && WireFormat(p, stream, items)
    ensures Carries(p, stream, items)
  {
    LayoutOk(p, items, |items|);
  }

  /** No further code stands behind the last one. */
  lemma NoCodeAfterEnd(p: Params, stream: seq<byte>, items: seq<Item>, code: nat)
    requires p.Supported() && Carries(p, stream, items)
    ensures !CodeAt(stream, Layout(p, items, |items|), code)
  {
    LayoutOk(p, items, |items|);
  }
}
