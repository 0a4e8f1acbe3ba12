/**
 What a sequence of codes means: the dictionary it builds and the text it stands for.
 This is the reference both programs are measured against; it mentions no table, no lag
 between the two sides and no bits.
 */
module LzwCodes {
  import opened Bits
  import opened LzwStream

  type Word = seq<byte>

  /** Every one-byte word; in block mode the CLEAR code holds a place that no code refers to. */
  function InitialWords(p: Params): (r: seq<Word>)
    ensures |r| == p.FirstFree()
    ensures forall c :: 0 <= c < 256 ==> r[c] == [c]
  {
    seq(p.FirstFree(), (i: int) => if 0 <= i < 256 then [i] else [])
  }

  /**
   What has been decoded so far: the dictionary, the word of the last code, and the text.
   `restart` holds at the start and just after CLEAR, when there is no last word to extend.
   */
  datatype Decoded = Decoded(words: seq<Word>, prev: Word, restart: bool, text: seq<byte>)

  function Head(w: Word): byte {
    if w == [] then 0 else w[0]
  }

  ghost predicate IsClear(p: Params, d: Decoded, code: nat) {
    p.block && code == CLEAR && !d.restart
  }

  /** A code may name a known word, the word about to be defined, or be CLEAR. */
  ghost predicate Acceptable(p: Params, d: Decoded, code: nat) {
    if d.restart then code < 256
    else code < |d.words| || (code == |d.words| && |d.words| < p.Limit())
  }

  ghost function WordOf(d: Decoded, code: nat): Word {
    if code < |d.words| then d.words[code] else d.prev + [Head(d.prev)]
  }

  /** The previous word extended by one byte enters the dictionary, unless it is full. */
  ghost function Learn(p: Params, d: Decoded, next: byte): seq<Word> {
    if d.restart || |d.words| >= p.Limit() then d.words else d.words + [d.prev + [next]]
  }

  ghost function Decode(p: Params, d: Decoded, code: nat): Decoded {
    if IsClear(p, d, code) then
      Decoded(InitialWords(p), d.prev, true, d.text)
    else
      var w := WordOf(d, code);
      Decoded(Learn(p, d, Head(w)), w, false, d.text + w)
  }

  /** The state after the first `k` codes. */
  ghost function After(p: Params, codes: seq<nat>, k: nat): Decoded
    requires k <= |codes|
  {
    if k == 0 then Decoded(InitialWords(p), [], true, [])
    else Decode(p, After(p, codes, k - 1), codes[k - 1])
  }

  /** The text a code sequence stands for. */
  ghost function Text(p: Params, codes: seq<nat>): seq<byte> {
    After(p, codes, |codes|).text
  }

  ghost predicate AcceptableAt(p: Params, codes: seq<nat>, k: nat)
    requires k < |codes|
  {
    Acceptable(p, After(p, codes, k), codes[k])
  }

  ghost predicate Valid(p: Params, codes: seq<nat>) {
    forall k :: 0 <= k < |codes| ==> AcceptableAt(p, codes, k)
  }

  ghost function ItemOf(p: Params, d: Decoded, code: nat): Item {
    Item(code, IsClear(p, d, code), |Decode(p, d, code).words|)
  }

  /** The first `n` codes with what the stream layout needs to know about each. */
  ghost function ItemsUpTo(p: Params, codes: seq<nat>, n: nat): (r: seq<Item>)
    requires n <= |codes|
    ensures |r| == n
  {
    if n == 0 then [] else ItemsUpTo(p, codes, n - 1) + [ItemOf(p, After(p, codes, n - 1), codes[n - 1])]
  }

  ghost function Items(p: Params, codes: seq<nat>): seq<Item> {
    ItemsUpTo(p, codes, |codes|)
  }

  /** A stream body that stands for `text`, by way of `codes`. */
  ghost predicate Encodes(p: Params, body: seq<byte>, codes: seq<nat>, text: seq<byte>) {
    Valid(p, codes) && WireFormat(p, body, Items(p, codes)) && Text(p, codes) == text
  }

  // ----- Consequences of the definitions -----

  ghost predicate DecodedOk(p: Params, d: Decoded) {
    && p.FirstFree() <= |d.words| <= p.Limit()
    && (!d.restart ==> d.prev != [] && |d.prev| < |d.words|)
    && (d.restart ==> d.words == InitialWords(p))
    && (forall c :: 0 <= c < 256 ==> d.words[c] == [c])
    && (forall c :: p.FirstFree() <= c < |d.words| ==> 2 <= |d.words[c]| <= c)
  }

  lemma InitialOk(p: Params)
    requires p.Supported()
    ensures DecodedOk(p, Decoded(InitialWords(p), [], true, []))
  {
    Widths();
    Pow2Monotone(INIT_BITS, p.maxBits);
  }

  lemma DecodeKeepsOk(p: Params, d: Decoded, code: nat)
    requires p.Supported() && DecodedOk(p, d) && Acceptable(p, d, code)
    ensures DecodedOk(p, Decode(p, d, code))
    ensures !IsClear(p, d, code) ==> WordOf(d, code) != [] && |Decode(p, d, code).words| <= |d.words| + 1
    ensures IsClear(p, d, code) ==> |Decode(p, d, code).words| == FIRST
  {
    Widths();
    Pow2Monotone(INIT_BITS, p.maxBits);
  }

  lemma {:induction false} AfterOk(p: Params, codes: seq<nat>, k: nat)
    requires p.Supported() && Valid(p, codes) && k <= |codes|
    ensures DecodedOk(p, After(p, codes, k))
  {
    if k == 0 {
      InitialOk(p);
    } else {
      AfterOk(p, codes, k - 1);
      assert AcceptableAt(p, codes, k - 1);
      DecodeKeepsOk(p, After(p, codes, k - 1), codes[k - 1]);
    }
  }

  lemma {:induction false} AfterOfPrefix(p: Params, codes: seq<nat>, more: seq<nat>, k: nat)
    requires k <= |codes|
    ensures After(p, codes + more, k) == After(p, codes, k)
  {
    if k > 0 {
      AfterOfPrefix(p, codes, more, k - 1);
    }
  }

  lemma {:induction false} ItemsTake(p: Params, codes: seq<nat>, n: nat, k: nat)
    requires k <= n <= |codes|
    ensures ItemsUpTo(p, codes, n)[..k] == ItemsUpTo(p, codes, k)
  {
    if k < n {
      ItemsTake(p, codes, n - 1, k);
      assert ItemsUpTo(p, codes, n)[..k] == ItemsUpTo(p, codes, n - 1)[..k];
    }
  }

  lemma ItemAt(p: Params, codes: seq<nat>, n: nat, k: nat)
    requires k < n <= |codes|
    ensures ItemsUpTo(p, codes, n)[k] == ItemOf(p, After(p, codes, k), codes[k])
    ensures ItemsUpTo(p, codes, n)[..k] == ItemsUpTo(p, codes, k)
  {
    ItemsTake(p, codes, n, k);
    ItemsTake(p, codes, n, k + 1);
    assert ItemsUpTo(p, codes, n)[k] == ItemsUpTo(p, codes, n)[..k + 1][k];
  }

  lemma {:induction false} ItemsOfPrefix(p: Params, codes: seq<nat>, more: seq<nat>, n: nat)
    requires n <= |codes|
    ensures ItemsUpTo(p, codes + more, n) == ItemsUpTo(p, codes, n)
  {
    if n > 0 {
      ItemsOfPrefix(p, codes, more, n - 1);
      AfterOfPrefix(p, codes, more, n - 1);
    }
  }

  lemma ItemsSnoc(p: Params, codes: seq<nat>, code: nat)
    ensures After(p, codes + [code], |codes|) == After(p, codes, |codes|)
    ensures After(p, codes + [code], |codes| + 1) == Decode(p, After(p, codes, |codes|), code)
    ensures Items(p, codes + [code]) == Items(p, codes) + [ItemOf(p, After(p, codes, |codes|), code)]
  {
    AfterOfPrefix(p, codes, [code], |codes|);
    ItemsOfPrefix(p, codes, [code], |codes|);
  }

  lemma ValidSnoc(p: Params, codes: seq<nat>, code: nat)
    requires Valid(p, codes) && Acceptable(p, After(p, codes, |codes|), code)
    ensures Valid(p, codes + [code])
  {
    forall k | 0 <= k < |codes| + 1
      ensures AcceptableAt(p, codes + [code], k)
    {
      AfterOfPrefix(p, codes, [code], k);
      if k < |codes| {
        assert AcceptableAt(p, codes, k);
      }
    }
  }

  /** An acceptable code fits the width in force. */
  lemma CodeFits(p: Params, d: Decoded, c: Cursor, code: nat)
    requires p.Supported() && DecodedOk(p, d) && CursorOk(p, c, |d.words|) && Acceptable(p, d, code)
    ensures code < Pow2(c.nBits)
  {
    Widths();
    Pow2Monotone(INIT_BITS, c.nBits);
  }

  lemma FreeIsWords(p: Params, codes: seq<nat>, n: nat)
    requires n <= |codes|
    ensures Free(p, ItemsUpTo(p, codes, n), n) == |After(p, codes, n).words|
  {
  }

  /** The items of a valid code sequence are paced: the stream layer can carry them. */
  lemma {:induction false} ItemsPaced(p: Params, codes: seq<nat>, n: nat)
    requires p.Supported() && Valid(p, codes) && n <= |codes|
    ensures Paced(p, ItemsUpTo(p, codes, n))
  {
    if n > 0 {
      var before, d, code := ItemsUpTo(p, codes, n - 1), After(p, codes, n - 1), codes[n - 1];
      ItemsPaced(p, codes, n - 1);
      AfterOk(p, codes, n - 1);
      assert AcceptableAt(p, codes, n - 1);
      FreeIsWords(p, codes, n - 1);
      LayoutOk(p, before, n - 1);
      NextItemPaced(p, before, d, code);
    }
  }

  /** There are already more entries than one bit less could number; and no more than the width's cap. */
  ghost predicate LeastWidth(p: Params, c: Cursor, entries: nat) {
    && INIT_BITS <= c.nBits <= BITS && entries <= CapOf(p, c.nBits)
    && (c.nBits > INIT_BITS ==> entries >= Pow2(c.nBits - 1))
  }

  lemma AdvanceKeepsLeast(p: Params, c: Cursor, item: Item, entries: nat)
    requires p.Supported() && CursorOk(p, c, entries) && CursorOk(p, Advance(p, c, item), item.free)
    requires LeastWidth(p, c, entries) && (item.clear || entries <= item.free)
    ensures LeastWidth(p, Advance(p, c, item), item.free)
  {
    hide EighthOf;
    Widths();
  }

  /** Codes are no wider than they have to be, and no narrower. */
  lemma {:induction false} WidthIsLeast(p: Params, codes: seq<nat>, n: nat)
    requires p.Supported() && Valid(p, codes) && n <= |codes|
    ensures LeastWidth(p, Layout(p, ItemsUpTo(p, codes, n), n), |After(p, codes, n).words|)
  {
    hide Valid, ItemOf, LeastWidth, CursorOk, Advance, Layout, ItemsUpTo;
    if n == 0 {
      assert ItemsUpTo(p, codes, 0) == [];
      FirstWidth(p);
    } else {
      WidthIsLeast(p, codes, n - 1);
      CursorFits(p, codes, n - 1);
      CursorFits(p, codes, n);
      OneOn(p, codes, n);
      WordsGrow(p, codes, n - 1);
      AdvanceKeepsLeast(p, Layout(p, ItemsUpTo(p, codes, n - 1), n - 1), ItemsUpTo(p, codes, n)[n - 1], |After(p, codes, n - 1).words|);
    }
  }

  lemma CursorFits(p: Params, codes: seq<nat>, n: nat)
    requires p.Supported() && Valid(p, codes) && n <= |codes|
    ensures CursorOk(p, Layout(p, ItemsUpTo(p, codes, n), n), |After(p, codes, n).words|)
  {
    hide Valid, CursorOk, Layout, ItemsUpTo, Paced;
    ItemsPaced(p, codes, n);
    LayoutOk(p, ItemsUpTo(p, codes, n), n);
    FreeIsWords(p, codes, n);
  }

  lemma OneOn(p: Params, codes: seq<nat>, n: nat)
    requires 0 < n <= |codes|
    ensures Layout(p, ItemsUpTo(p, codes, n), n) == Advance(p, Layout(p, ItemsUpTo(p, codes, n - 1), n - 1), ItemsUpTo(p, codes, n)[n - 1])
  {
    hide ItemsUpTo, Advance;
    ItemsTake(p, codes, n, n - 1);
    LayoutOfTake(p, ItemsUpTo(p, codes, n), n - 1, n - 1);
  }

  lemma FirstWidth(p: Params)
    requires p.Supported()
    ensures LeastWidth(p, Layout(p, [], 0), p.FirstFree())
  {
    Widths();
  }

  lemma WordsGrow(p: Params, codes: seq<nat>, k: nat)
    requires k < |codes|
    ensures ItemsUpTo(p, codes, k + 1)[k].clear || |After(p, codes, k).words| <= |After(p, codes, k + 1).words|
    ensures ItemsUpTo(p, codes, k + 1)[k].free == |After(p, codes, k + 1).words|
  {
  }

  lemma NextItemPaced(p: Params, before: seq<Item>, d: Decoded, code: nat)
    requires p.Supported() && Paced(p, before) && DecodedOk(p, d) && Acceptable(p, d, code)
    requires Free(p, before, |before|) == |d.words|
    ensures Paced(p, before + [ItemOf(p, d, code)])
  {
    LayoutOk(p, before, |before|);
    DecodeKeepsOk(p, d, code);
    CodeFits(p, d, Layout(p, before, |before|), code);
    PacedSnoc(p, before, ItemOf(p, d, code));
  }

  /** Code `k` stands in the stream where the first `k` codes put it. */
  ghost predicate ReadAt(p: Params, body: seq<byte>, codes: seq<nat>, k: nat)
    requires k < |codes|
  {
    var c := Layout(p, ItemsUpTo(p, codes, k), k);
    CodeAt(body, c, codes[k]) && codes[k] < Pow2(c.nBits)
  }

  lemma CodeIsRead(p: Params, body: seq<byte>, codes: seq<nat>, k: nat)
    requires k < |codes| && Carries(p, body, Items(p, codes))
    ensures ReadAt(p, body, codes, k)
  {
    var items := Items(p, codes);
    assert HeldAt(p, body, items, k) && PacedAt(p, items, k);
    ItemAt(p, codes, |codes|, k);
    LayoutOfTake(p, items, k, k);
  }
}
