/**
 Any stream, whoever wrote it: the codes that are read from it one after the other, until it ends, or
 until a code comes that the dictionary built so far does not admit.
 */
module LzwReading {
  import opened Bits
  import opened LzwCodes
  import opened LzwStream

  /**
   `Finished`: all codes are admitted. `Broken`: after `codes` comes one that is not. `Stray`: after
   them a new chunk begins that is too short for a single code.
   */
  datatype Reading = Finished(codes: seq<nat>) | Broken(codes: seq<nat>, next: nat) | Stray(codes: seq<nat>)

  /** The number whose bits, least significant first, are the `n` from `pos` on. */
  ghost function ValueAt(stream: seq<byte>, pos: nat, n: nat): (v: nat)
    requires pos + n <= 8 * |stream|
    ensures v < Pow2(n)
    decreases n
  {
    if n == 0 then 0 else (if StreamBit(stream, pos) then 1 else 0) + 2 * ValueAt(stream, pos + 1, n - 1)
  }

  lemma {:induction false} ValueBits(stream: seq<byte>, pos: nat, n: nat, b: nat)
    requires pos + n <= 8 * |stream| && b < n
    ensures Bit(ValueAt(stream, pos, n), b) <==> StreamBit(stream, pos + b)
    decreases n
  {
    var rest := ValueAt(stream, pos + 1, n - 1);
    var v := ValueAt(stream, pos, n);
    assert v / 2 == rest && v % 2 == if StreamBit(stream, pos) then 1 else 0;
    if b > 0 { ValueBits(stream, pos + 1, n - 1, b - 1); }
  }

  lemma ValueIsCode(stream: seq<byte>, c: Cursor)
    requires Position(c) + c.nBits <= 8 * |stream|
    ensures CodeAt(stream, c, ValueAt(stream, Position(c), c.nBits))
  {
    forall b | 0 <= b < c.nBits
      ensures StreamBit(stream, Position(c) + b) == Bit(ValueAt(stream, Position(c), c.nBits), b)
    {
      ValueBits(stream, Position(c), c.nBits, b);
    }
  }

  predicate TooShort(stream: seq<byte>, c: Cursor) {
    c.off == 0 && 8 * ChunkLength(stream, c) < c.nBits
  }

  /** Where the next code is looked for. */
  ghost function Next(p: Params, codes: seq<nat>): Cursor {
    Layout(p, Items(p, codes), |codes|)
  }

  ghost predicate IsRead(p: Params, stream: seq<byte>, codes: seq<nat>) {
    Valid(p, codes) && Placed(p, stream, Items(p, codes))
  }

  lemma NextFits(p: Params, stream: seq<byte>, codes: seq<nat>)
    requires p.Supported() && Valid(p, codes)
    ensures var c := Next(p, codes);
      !Ended(stream, c) && !TooShort(stream, c) ==> Position(c) + c.nBits <= 8 * |stream|
  {
  }

  /** One more code, if it is admitted. */
  lemma ReadsOn(p: Params, stream: seq<byte>, codes: seq<nat>)
    requires p.Supported() && IsRead(p, stream, codes) && Position(Next(p, codes)) + Next(p, codes).nBits <= 8 * |stream|
    requires Acceptable(p, After(p, codes, |codes|), ValueAt(stream, Position(Next(p, codes)), Next(p, codes).nBits))
    ensures IsRead(p, stream, codes + [ValueAt(stream, Position(Next(p, codes)), Next(p, codes).nBits)])
    ensures |codes| < 8 * |stream|
  {
    hide ValueAt, CodeAt, Acceptable, Decode;
    var c := Next(p, codes);
    var code := ValueAt(stream, Position(c), c.nBits);
    ValueIsCode(stream, c);
    ValidSnoc(p, codes, code);
    ItemsSnoc(p, codes, code);
    PlacedSnoc(p, stream, Items(p, codes), ItemOf(p, After(p, codes, |codes|), code));
    ItemsPaced(p, codes, |codes|);
    LayoutOk(p, Items(p, codes), |codes|);
    PositionGrows(p, Items(p, codes), |codes|);
  }

  lemma {:induction false} PositionGrows(p: Params, items: seq<Item>, k: nat)
    requires p.Supported() && Paced(p, items) && k <= |items|
    ensures Position(Layout(p, items, k)) >= k
  {
    hide Paced, Advance;
    if k > 0 {
      PositionGrows(p, items, k - 1);
      LayoutMonotone(p, items, k - 1, k);
      LayoutOk(p, items, k - 1);
    }
  }

  /** What reading on comes to once `codes` are read. */
  ghost function ReadFrom(p: Params, stream: seq<byte>, codes: seq<nat>): (r: Reading)
    requires p.Supported() && IsRead(p, stream, codes)
    ensures IsRead(p, stream, r.codes) && codes <= r.codes
    ensures r.Finished? ==> Carries(p, stream, Items(p, r.codes))
    ensures r.Broken? ==> !Acceptable(p, After(p, r.codes, |r.codes|), r.next) && CodeAt(stream, Next(p, r.codes), r.next)
    ensures r.Stray? ==> TooShort(stream, Next(p, r.codes)) && !Ended(stream, Next(p, r.codes))
    decreases 8 * |stream| - |codes|
  {
    var c := Next(p, codes);
    ItemsPaced(p, codes, |codes|);
    NextFits(p, stream, codes);
    if Ended(stream, c) then Finished(codes)
    else if TooShort(stream, c) then Stray(codes)
    else
      var code := ValueAt(stream, Position(c), c.nBits);
      ValueIsCode(stream, c);
      if Acceptable(p, After(p, codes, |codes|), code) then
        ReadsOn(p, stream, codes);
        ReadFrom(p, stream, codes + [code])
      else Broken(codes, code)
  }

  /** What reading the whole stream comes to. */
  ghost function Read(p: Params, stream: seq<byte>): (r: Reading)
    requires p.Supported()
    ensures IsRead(p, stream, r.codes)
    ensures r.Finished? ==> Carries(p, stream, Items(p, r.codes))
  {
    ReadFrom(p, stream, [])
  }

  /** Where the stream carries code `k`, that is what is read there. */
  lemma CarriedIsNext(p: Params, stream: seq<byte>, codes: seq<nat>, k: nat)
    requires p.Supported() && Valid(p, codes) && Carries(p, stream, Items(p, codes)) && k < |codes|
    ensures var c := Next(p, codes[..k]);
      && !Ended(stream, c) && !TooShort(stream, c) && Position(c) + c.nBits <= 8 * |stream|
      && ValueAt(stream, Position(c), c.nBits) == codes[k]
  {
    hide Paced, Placed, Valid, CodeAt, ValueAt, ItemsUpTo, ReadFrom;
    var before := codes[..k];
    Truncated(p, stream, codes, k);
    CodeIsRead(p, stream, codes, k);
    assert ReadAt(p, stream, codes, k);
    CarriedFits(p, stream, before, codes[k]);
    var c := Next(p, before);
    ValueIsCode(stream, c);
    SameCode(stream, c, ValueAt(stream, Position(c), c.nBits), codes[k]);
  }

  lemma CarriedFits(p: Params, stream: seq<byte>, codes: seq<nat>, code: nat)
    requires p.Supported() && Valid(p, codes) && CodeAt(stream, Next(p, codes), code)
    ensures var c := Next(p, codes);
      !Ended(stream, c) && !TooShort(stream, c) && Position(c) + c.nBits <= 8 * |stream|
  {
    hide ItemsUpTo, Layout;
    ItemsPaced(p, codes, |codes|);
    LayoutOk(p, Items(p, codes), |codes|);
  }

  lemma {:induction false} ReadsTheRest(p: Params, stream: seq<byte>, codes: seq<nat>, k: nat)
    requires p.Supported() && Valid(p, codes) && Carries(p, stream, Items(p, codes)) && k <= |codes|
    ensures IsRead(p, stream, codes[..k]) && ReadFrom(p, stream, codes[..k]) == Finished(codes)
    decreases |codes| - k
  {
    hide IsRead, Valid, ItemsUpTo, Ended, TooShort, ValueAt, Acceptable, After, Paced, Placed;
    Truncated(p, stream, codes, k);
    if k == |codes| {
      assert codes[..k] == codes;
    } else {
      ReadsTheRest(p, stream, codes, k + 1);
      CarriedIsNext(p, stream, codes, k);
      AcceptedNext(p, codes, k);
      assert codes[..k] + [codes[k]] == codes[..k + 1];
    }
  }

  lemma AcceptedNext(p: Params, codes: seq<nat>, k: nat)
    requires Valid(p, codes) && k < |codes|
    ensures Acceptable(p, After(p, codes[..k], k), codes[k])
  {
    assert AcceptableAt(p, codes, k);
    assert codes == codes[..k] + codes[k..];
    AfterOfPrefix(p, codes[..k], codes[k..], k);
  }

  /** The first codes of a stream are read, too. */
  lemma Truncated(p: Params, stream: seq<byte>, codes: seq<nat>, k: nat)
    requires p.Supported() && Valid(p, codes) && Placed(p, stream, Items(p, codes)) && k <= |codes|
    ensures IsRead(p, stream, codes[..k]) && Items(p, codes[..k]) == ItemsUpTo(p, codes, k)
  {
    var before, items := codes[..k], Items(p, codes);
    assert codes == before + codes[k..];
    ItemsOfPrefix(p, before, codes[k..], k);
    ItemsTake(p, codes, |codes|, k);
    forall i | 0 <= i < k
      ensures AcceptableAt(p, before, i)
    {
      assert AcceptableAt(p, codes, i);
      AfterOfPrefix(p, before, codes[k..], i);
    }
    forall i | 0 <= i < k
      ensures HeldAt(p, stream, Items(p, before), i)
    {
      assert HeldAt(p, stream, items, i);
      LayoutOfTake(p, items, k, i);
    }
  }

  /** Reading finishes with these codes exactly if the stream carries them. */
  lemma ReadIffCarried(p: Params, stream: seq<byte>, codes: seq<nat>)
    requires p.Supported()
    ensures Read(p, stream) == Finished(codes) <==> Valid(p, codes) && Carries(p, stream, Items(p, codes))
  {
    if Valid(p, codes) && Carries(p, stream, Items(p, codes)) {
      ReadsTheRest(p, stream, codes, 0);
      assert codes[..0] == [];
    }
  }

  /** A stream body determines its codes: nothing else can be read from it. */
  lemma UniqueCodes(p: Params, body: seq<byte>, a: seq<nat>, b: seq<nat>)
    requires p.Supported() && Valid(p, a) && Valid(p, b)
    requires Carries(p, body, Items(p, a)) && Carries(p, body, Items(p, b))
    ensures a == b
  {
    hide Read, Carries, Valid, ItemsUpTo;
    ReadIffCarried(p, body, a);
    ReadIffCarried(p, body, b);
  }

  /** What a compressor writes is read to its end. */
  lemma WrittenIsRead(p: Params, body: seq<byte>, codes: seq<nat>, text: seq<byte>)
    requires p.Supported() && Encodes(p, body, codes, text)
    ensures Read(p, body) == Finished(codes)
  {
    hide Read;
    WrittenIsCarried(p, body, Items(p, codes));
    ReadIffCarried(p, body, codes);
  }

  lemma NextCode(s: seq<byte>, c: Cursor, code: nat)
    requires CodeAt(s, c, code) && code < Pow2(c.nBits)
    ensures Position(c) + c.nBits <= 8 * |s| && ValueAt(s, Position(c), c.nBits) == code
  {
    ValueIsCode(s, c);
    SameCode(s, c, ValueAt(s, Position(c), c.nBits), code);
  }

  const BROKEN: seq<byte> := [0x00, 0xfe, 0x03]

  lemma FirstBits(b: nat)
    requires b < 9
    ensures !StreamBit(BROKEN, b)
  {
    if b < 8 {
      ZeroBit(b);
    } else {
      assert !Bit(0xfe, 0);
    }
  }

  lemma SecondBits(b: nat)
    requires b < 9
    ensures StreamBit(BROKEN, 9 + b)
  {
    assert Pow2(2) == 4 && Pow2(7) == 128;
    if b < 7 {
      Ones(7, b);
      assert (9 + b) / 8 == 1 && (9 + b) % 8 == b + 1;
      assert Bit(0xfe, b + 1) == Bit(0xfe / 2, b);
    } else {
      Ones(2, b - 7);
      assert (9 + b) / 8 == 2 && (9 + b) % 8 == b - 7;
    }
  }

  lemma TwoCodes()
    ensures CodeAt(BROKEN, Cursor(0, 0, 9, 511), 0) && CodeAt(BROKEN, Cursor(0, 9, 9, 511), 511)
  {
    hide StreamBit, Bit;
    Widths();
    forall b | 0 <= b < 9
      ensures StreamBit(BROKEN, b) == Bit(0, b) && StreamBit(BROKEN, 9 + b) == Bit(511, b)
    {
      FirstBits(b);
      SecondBits(b);
      ZeroBit(b);
      Ones(9, b);
    }
  }

  /** After a byte at the beginning nothing is learnt yet. */
  lemma AfterOneByte(p: Params, code: nat)
    requires p.Supported() && p.block && code < 256
    ensures Valid(p, [code]) && Items(p, [code]) == [Item(code, false, 257)]
    ensures |After(p, [code], 1).words| == 257 && !After(p, [code], 1).restart
  {
    assert After(p, [code], 0) == Decoded(InitialWords(p), [], true, []);
    assert AcceptableAt(p, [code], 0);
    assert ItemsUpTo(p, [code], 0) == [];
  }

  lemma AfterOneItem(p: Params, code: nat)
    requires p.Supported() && p.block && code < 256
    ensures Next(p, []) == Cursor(0, 0, 9, 511) && Next(p, [code]) == Cursor(0, 9, 9, 511)
  {
    hide Items;
    Widths();
    AfterOneByte(p, code);
    assert Layout(p, [Item(code, false, 257)], 0) == Cursor(0, 0, 9, 511);
  }

  lemma FirstIsRead(p: Params)
    requires p.Supported() && p.block
    ensures IsRead(p, BROKEN, [0]) && Read(p, BROKEN) == ReadFrom(p, BROKEN, [0])
  {
    hide CodeAt, ValueAt, ItemsUpTo, Layout, Next;
    TwoCodes();
    AfterOneItem(p, 0);
    Widths();
    NextCode(BROKEN, Cursor(0, 0, 9, 511), 0);
    assert Acceptable(p, After(p, [], 0), 0);
    ReadsOn(p, BROKEN, []);
    assert [] + [0] == [0];
  }

  /** A stream with a code that is not admitted: behind a zero byte stands 511, while entry 257 is the next. */
  lemma BrokenStream()
    ensures var p := Params(16, true); p.Supported() && Read(p, BROKEN) == Broken([0], 511)
  {
    hide CodeAt, ValueAt, ItemsUpTo, Layout, Next, After, Read;
    var p := Params(16, true);
    Widths();
    TwoCodes();
    AfterOneItem(p, 0);
    AfterOneByte(p, 0);
    FirstIsRead(p);
    NextCode(BROKEN, Cursor(0, 9, 9, 511), 511);
  }

  /** A number of `n` ones. */
  lemma {:induction false} Ones(n: nat, b: nat)
    requires b < n
    ensures Bit(Pow2(n) - 1, b)
  {
    assert (Pow2(n) - 1) % 2 == 1 && (Pow2(n) - 1) / 2 == Pow2(n - 1) - 1;
    if b > 0 { Ones(n - 1, b - 1); }
  }
}
