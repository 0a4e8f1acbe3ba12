/** The compressor: its output side (`Output`) and its hashed dictionary (`Compress`). */
module Compress {
  import opened Bits
  import opened LzwStream
  import opened LzwCodes
  import opened LzwBuffer
  import opened LzwClear
  import opened LzwGreedy
  import opened LzwHash

  const MAGIC: seq<byte> := [0x1f, 0x9d]
  const BLOCK_MASK: byte := 0x80

  function Header(p: Params): (h: seq<byte>)
    requires p.Supported()
    ensures |h| == 3
  {
    MAGIC + [p.maxBits + if p.block then BLOCK_MASK else 0]
  }

  // ----- The hash table, seen through the dictionary `words` -----

  /** The number filed in `htab` for a prefix code followed by a byte. */
  function Key(p: Params, c: byte, ent: nat): nat {
    Shl(c, p.maxBits) + ent
  }

  lemma {:induction false} KeyInjective(c: nat, d: nat, e: nat, f: nat, k: nat)
    requires e < Pow2(k) && f < Pow2(k) && Shl(c, k) + e == Shl(d, k) + f
    ensures c == d && e == f
  {
    if k > 0 {
      assert (Shl(c, k) + e) % 2 == e % 2 && (Shl(c, k) + e) / 2 == Shl(c, k - 1) + e / 2;
      assert (Shl(d, k) + f) % 2 == f % 2 && (Shl(d, k) + f) / 2 == Shl(d, k - 1) + f / 2;
      KeyInjective(c, d, e / 2, f / 2, k - 1);
    }
  }

  /** `key` is filed with a `code` whose word is the prefix code's word and one byte more. */
  ghost predicate Files(p: Params, words: seq<Word>, key: int, code: int) {
    && p.FirstFree() <= code < |words| <= p.Limit()
    && exists ent: nat, c: byte :: ent < |words| && key == Key(p, c, ent) && words[code] == words[ent] + [c]
  }

  ghost predicate TableOk(p: Params, htab: seq<int>, codetab: seq<int>, words: seq<Word>) {
    && |htab| == HSIZE && |codetab| == HSIZE
    && (forall i :: 0 <= i < HSIZE ==> htab[i] >= -1)
    && (forall i :: 0 <= i < HSIZE && htab[i] >= 0 ==> Files(p, words, htab[i], codetab[i]))
    && (forall i, j :: 0 <= i < j < HSIZE && htab[i] >= 0 && htab[j] >= 0 ==> codetab[i] != codetab[j])
  }

  /** A hit names exactly the word looked for, whatever was overwritten before. */
  lemma HitIsSound(p: Params, words: seq<Word>, c: byte, ent: nat, code: int)
    requires ent < |words| && Files(p, words, Key(p, c, ent), code)
    ensures words[code] == words[ent] + [c]
  {
    var e: nat, d: byte :| e < |words| && Key(p, c, ent) == Key(p, d, e) && words[code] == words[e] + [d];
    KeyInjective(c, d, ent, e, p.maxBits);
  }

  lemma FilingKeepsOk(p: Params, htab: seq<int>, codetab: seq<int>, words: seq<Word>, i: nat, c: byte, ent: nat)
    requires p.Supported() && TableOk(p, htab, codetab, words)
    requires i < HSIZE && ent < |words| && p.FirstFree() <= |words| < p.Limit()
    ensures TableOk(p, htab[i := Key(p, c, ent)], codetab[i := |words|], words + [words[ent] + [c]])
  {
    var words' := words + [words[ent] + [c]];
    var h, t := htab[i := Key(p, c, ent)], codetab[i := |words|];
    forall j | 0 <= j < HSIZE && h[j] >= 0
      ensures Files(p, words', h[j], t[j])
    {
      if j == i {
        assert words'[|words|] == words'[ent] + [c];
      } else {
        assert Files(p, words, htab[j], codetab[j]);
        var e: nat, d: byte :| e < |words| && htab[j] == Key(p, d, e) && words[codetab[j]] == words[e] + [d];
        assert words'[codetab[j]] == words'[e] + [d];
      }
    }
  }

  /** The slots met by the first `n` probes are occupied. */
  ghost predicate AllOccupied(htab: seq<int>, start: nat, disp: nat, n: nat)
    requires |htab| == HSIZE && start < HSIZE && disp < HSIZE
  {
    forall j :: 0 <= j < n ==> htab[Slot(start, disp, j)] >= 0
  }

  /** No probe sequence meets more than 65280 occupied slots. */
  ghost predicate SearchEnds(htab: seq<int>) {
    && |htab| == HSIZE
    && forall start: nat, disp: nat, n: nat ::
         start < HSIZE && 0 < disp < HSIZE && n <= HSIZE && AllOccupied(htab, start, disp, n) ==> n <= 65280
  }

  /** The table is never so full that a search could go on for ever. */
  lemma SearchIsBounded(p: Params, htab: seq<int>, codetab: seq<int>, words: seq<Word>)
    requires p.Supported() && TableOk(p, htab, codetab, words)
    ensures SearchEnds(htab)
  {
    Widths();
    Pow2Monotone(p.maxBits, BITS);
    forall i | 0 <= i < HSIZE && htab[i] >= 0
      ensures 256 <= codetab[i] < 65536
    {
      assert Files(p, words, htab[i], codetab[i]);
    }
    forall start: nat, disp: nat, n: nat
      | start < HSIZE && 0 < disp < HSIZE && n <= HSIZE && AllOccupied(htab, start, disp, n)
      ensures n <= 65280
    {
      ProbesBounded(start, disp, n, htab, codetab, 256, 65536);
    }
  }

  // ----- What a search finds -----

  function Start(c: byte, ent: nat): nat {
    Xor(Shl(c, 8), ent)
  }

  function Step(start: nat): (disp: nat)
    requires start < HSIZE
    ensures 0 < disp < HSIZE
  {
    if start == 0 then 1 else HSIZE - start
  }

  /** The search goes past slot `m`: the first that is looked at holds something, any other more than 0. */
  predicate GoesPast(htab: seq<int>, start: nat, m: nat)
    requires |htab| == HSIZE && start < HSIZE
  {
    if m == 0 then htab[start] >= 0 else htab[Slot(start, Step(start), m)] > 0
  }

  ghost predicate GoesOn(htab: seq<int>, start: nat, k: nat)
    requires |htab| == HSIZE && start < HSIZE
  {
    forall m: nat :: m < k ==> GoesPast(htab, start, m)
  }

  /** A search for the pair comes to its key, if not to the same key before. */
  ghost predicate Finds(p: Params, htab: seq<int>, pair: Pair) {
    && |htab| == HSIZE && Start(pair.1, pair.0) < HSIZE
    && exists k: nat :: FindsAt(p, htab, pair, k)
  }

  ghost predicate FindsAt(p: Params, htab: seq<int>, pair: Pair, k: nat)
    requires |htab| == HSIZE && Start(pair.1, pair.0) < HSIZE
  {
    var start := Start(pair.1, pair.0);
    GoesOn(htab, start, k) && htab[Slot(start, Step(start), k)] == Key(p, pair.1, pair.0)
  }

  /** A search that starts at `start` stops at slot `i`, which is free. */
  ghost predicate StopsAt(htab: seq<int>, start: nat, i: nat)
    requires |htab| == HSIZE && start < HSIZE && i < HSIZE
  {
    exists k: nat :: StopsAfter(htab, start, i, k)
  }

  ghost predicate StopsAfter(htab: seq<int>, start: nat, i: nat, k: nat)
    requires |htab| == HSIZE && start < HSIZE && i < HSIZE
  {
    i == Slot(start, Step(start), k) && GoesOn(htab, start, k) && !GoesPast(htab, start, k)
  }

  /** Nowhere on its way does the search come to the key. */
  ghost predicate Misses(htab: seq<int>, start: nat, fcode: int)
    requires |htab| == HSIZE && start < HSIZE
  {
    forall k: nat :: GoesOn(htab, start, k) ==> htab[Slot(start, Step(start), k)] != fcode
  }

  lemma MissedIsNotFound(p: Params, htab: seq<int>, pair: Pair)
    requires |htab| == HSIZE && Start(pair.1, pair.0) < HSIZE && Misses(htab, Start(pair.1, pair.0), Key(p, pair.1, pair.0))
    ensures !Finds(p, htab, pair)
  {
    hide Key, Start, GoesOn;
  }

  lemma NotPast(htab: seq<int>, start: nat, i: nat, k: nat, m: nat)
    requires |htab| == HSIZE && start < HSIZE && i < HSIZE && StopsAfter(htab, start, i, k) && GoesOn(htab, start, m)
    ensures m <= k
  {
    hide GoesPast;
  }

  /** The first `k` slots were passed, and none holds the key. */
  ghost predicate Passed(htab: seq<int>, fcode: int, start: nat, k: nat)
    requires |htab| == HSIZE && start < HSIZE
  {
    GoesOn(htab, start, k) && forall m: nat :: m < k ==> htab[Slot(start, Step(start), m)] != fcode
  }

  lemma PassNone(htab: seq<int>, fcode: int, start: nat)
    requires |htab| == HSIZE && start < HSIZE
    ensures Passed(htab, fcode, start, 0)
  {
  }

  lemma PassOne(htab: seq<int>, fcode: int, start: nat, k: nat)
    requires |htab| == HSIZE && start < HSIZE && Passed(htab, fcode, start, k)
    requires GoesPast(htab, start, k) && htab[Slot(start, Step(start), k)] != fcode
    ensures Passed(htab, fcode, start, k + 1)
  {
    hide GoesPast, Slot, Step;
  }

  /** Where the search stops it has not passed over the key, and would not come to it further on. */
  lemma Stopped(htab: seq<int>, fcode: int, start: nat, k: nat)
    requires |htab| == HSIZE && start < HSIZE && Passed(htab, fcode, start, k)
    requires !GoesPast(htab, start, k) && htab[Slot(start, Step(start), k)] != fcode
    ensures StopsAt(htab, start, Slot(start, Step(start), k)) && Misses(htab, start, fcode)
  {
    hide GoesOn, GoesPast, Slot, Step;
    assert StopsAfter(htab, start, Slot(start, Step(start), k), k);
    forall m: nat | GoesOn(htab, start, m)
      ensures htab[Slot(start, Step(start), m)] != fcode
    {
      NotPast(htab, start, Slot(start, Step(start), k), k, m);
    }
  }

  lemma PassedFew(htab: seq<int>, fcode: int, start: nat, k: nat)
    requires SearchEnds(htab) && start < HSIZE && k <= HSIZE && Passed(htab, fcode, start, k)
    ensures k <= 65280
  {
    hide Slot;
    FirstSlot(start);
    forall j | 0 <= j < k
      ensures htab[Slot(start, Step(start), j)] >= 0
    {
      assert GoesPast(htab, start, j);
    }
    assert AllOccupied(htab, start, Step(start), k);
  }

  /** Every pair filed is found, but for (0, 0): its key is 0, which a later search takes for a free slot. */
  ghost predicate FindsAll(p: Params, htab: seq<int>, filed: seq<Pair>) {
    forall pair :: pair in filed && pair != (0, 0) ==> Finds(p, htab, pair)
  }

  lemma KeyIsZero(p: Params, pair: Pair)
    ensures Key(p, pair.1, pair.0) == 0 <==> pair == (0, 0)
  {
    ShlZero(pair.1, p.maxBits);
  }

  lemma {:induction false} ShlZero(c: nat, k: nat)
    ensures Shl(c, k) == 0 <==> c == 0
  {
    if k > 0 { ShlZero(c, k - 1); }
  }

  lemma StopIsFree(htab: seq<int>, start: nat, i: nat)
    requires |htab| == HSIZE && start < HSIZE && i < HSIZE && StopsAt(htab, start, i)
    ensures htab[i] <= 0
  {
    hide Slot, GoesOn;
    var k: nat :| StopsAfter(htab, start, i, k);
    assert k == 0 ==> Slot(start, Step(start), 0) == start by { FirstSlot(start); }
  }

  lemma FirstSlot(start: nat)
    requires start < HSIZE
    ensures Slot(start, Step(start), 0) == start
  {
  }

  /** A search that passes over a slot does so too once a free slot is filled. */
  lemma GoesOnStill(htab: seq<int>, start: nat, k: nat, i: nat, key: nat)
    requires |htab| == HSIZE && start < HSIZE && i < HSIZE && htab[i] <= 0 && GoesOn(htab, start, k)
    ensures GoesOn(htab[i := key], start, k)
  {
    hide Slot;
    var filled := htab[i := key];
    forall m: nat {:trigger GoesPast(filled, start, m)} | m < k
      ensures GoesPast(filled, start, m)
    {
      assert GoesPast(htab, start, m);
    }
  }

  /** Where a search for another key stops, filing something takes nothing out of reach. */
  lemma StillFinds(p: Params, htab: seq<int>, pair: Pair, i: nat, key: nat)
    requires Finds(p, htab, pair) && pair != (0, 0) && i < HSIZE && htab[i] <= 0
    ensures Finds(p, htab[i := key], pair)
  {
    hide Key, Slot, Start, GoesOn;
    KeyIsZero(p, pair);
    var k: nat :| FindsAt(p, htab, pair, k);
    GoesOnStill(htab, Start(pair.1, pair.0), k, i, key);
    assert FindsAt(p, htab[i := key], pair, k);
  }

  lemma FindsNow(p: Params, htab: seq<int>, pair: Pair, i: nat)
    requires |htab| == HSIZE && i < HSIZE && Start(pair.1, pair.0) < HSIZE && StopsAt(htab, Start(pair.1, pair.0), i)
    ensures Finds(p, htab[i := Key(p, pair.1, pair.0)], pair)
  {
    hide Key, Slot, Start, GoesOn, GoesPast;
    var start := Start(pair.1, pair.0);
    StopIsFree(htab, start, i);
    var k: nat :| StopsAfter(htab, start, i, k);
    GoesOnStill(htab, start, k, i, Key(p, pair.1, pair.0));
    assert FindsAt(p, htab[i := Key(p, pair.1, pair.0)], pair, k);
  }

  lemma NothingFiled(p: Params, htab: seq<int>)
    ensures FindsAll(p, htab, [])
  {
  }

  lemma FilingFinds(p: Params, htab: seq<int>, filed: seq<Pair>, pair: Pair, i: nat)
    requires |htab| == HSIZE && i < HSIZE && Start(pair.1, pair.0) < HSIZE && StopsAt(htab, Start(pair.1, pair.0), i)
    requires FindsAll(p, htab, filed)
    ensures FindsAll(p, htab[i := Key(p, pair.1, pair.0)], filed + [pair])
  {
    hide Finds, Start, StopsAt;
    var h := htab[i := Key(p, pair.1, pair.0)];
    StopIsFree(htab, Start(pair.1, pair.0), i);
    FindsNow(p, htab, pair, i);
    forall x | x in filed + [pair] && x != (0, 0)
      ensures Finds(p, h, x)
    {
      if x != pair { StillFinds(p, htab, x, i, Key(p, pair.1, pair.0)); }
    }
  }

  /** Filing something else loses the pair (0, 0) exactly if it is put in the place of the one key 0 there is. */
  lemma ZeroKeptIff(p: Params, htab: seq<int>, i: nat, key: nat)
    requires Finds(p, htab, (0, 0)) && i < HSIZE && htab[i] <= 0 && key > 0
    requires forall j, l :: 0 <= j < l < HSIZE && htab[j] == 0 ==> htab[l] != 0
    ensures Finds(p, htab[i := key], (0, 0)) <==> htab[i] != 0
  {
    hide Key, Slot, Start, GoesOn;
    KeyIsZero(p, (0, 0));
    if htab[i] != 0 {
      var k: nat :| FindsAt(p, htab, (0, 0), k);
      GoesOnStill(htab, Start(0, 0), k, i, key);
      assert FindsAt(p, htab[i := key], (0, 0), k);
    }
  }

  /**
   The exception is real: where the slots 0 and 34500 are taken and the key 0 is filed at 69000, the pair
   (34500, 0) is filed over it, and the pair (0, 0) is found no more.
   */
  lemma ZeroIsLost(p: Params, htab: seq<int>)
    requires p.Supported() && |htab| == HSIZE && htab[0] > 0 && htab[34500] > 0 && htab[69000] == 0
    requires htab[68999] == -1 && forall i :: 0 <= i < HSIZE && i != 69000 ==> htab[i] != 0
    ensures Finds(p, htab, (0, 0)) && Start(0, 34500) == 34500 && StopsAt(htab, 34500, 69000)
    ensures Key(p, 0, 34500) == 34500 && !Finds(p, htab[69000 := 34500], (0, 0))
  {
    ShlZero(0, 8);
    ShlZero(0, p.maxBits);
    assert Slot(0, 1, 0) == 0 && Slot(0, 1, 1) == 69000 && Slot(0, 1, 2) == 68999;
    assert FindsAt(p, htab, (0, 0), 1);
    assert Slot(34500, 34501, 0) == 34500 && Slot(34500, 34501, 1) == 69000;
    assert StopsAfter(htab, 34500, 69000, 1);
  }

  // ----- The encoder one step ahead of the reference decoder -----

  /**
   The encoder has put out `codes`, which stand for `input[..j]`, and holds the code `ent` of
   input[j..i]. Its dictionary is the reference one after it has learnt input[j].
   */
  ghost predicate EncoderOk(p: Params, codes: seq<nat>, words: seq<Word>, ent: nat, input: seq<byte>, j: nat, i: nat) {
    && Valid(p, codes)
    && j < i <= |input|
    && (var d := After(p, codes, |codes|);
        && DecodedOk(p, d)
        && d.text == input[..j]
        && words == Learn(p, d, input[j]))
    && ent < |words| && words[ent] == input[j..i]
    && (ent < 256 || p.FirstFree() <= ent)
  }

  lemma StartOfText(p: Params, input: seq<byte>)
    requires p.Supported() && |input| > 0
    ensures EncoderOk(p, [], InitialWords(p), input[0], input, 0, 1)
  {
    InitialOk(p);
    assert input[0..1] == [input[0]];
  }

  /** The code held is one the reference accepts, and it stands for the bytes held. */
  lemma HeldCode(p: Params, codes: seq<nat>, words: seq<Word>, ent: nat, input: seq<byte>, j: nat, i: nat)
    requires p.Supported() && EncoderOk(p, codes, words, ent, input, j, i)
    ensures var d := After(p, codes, |codes|);
      && Acceptable(p, d, ent) && !IsClear(p, d, ent)
      && WordOf(d, ent) == input[j..i]
      && Decode(p, d, ent) == Decoded(words, input[j..i], false, input[..i])
  {
    var d := After(p, codes, |codes|);
    assert input[j..i][0] == input[j];
    assert input[..j] + input[j..i] == input[..i];
    if ent == |d.words| {
      assert words[ent] == d.prev + [input[j]];
      assert (d.prev + [input[j]])[0] == d.prev[0];
    }
  }

  /** A hit extends the word held by one byte. */
  lemma HitExtends(p: Params, codes: seq<nat>, words: seq<Word>, ent: nat, input: seq<byte>, j: nat, i: nat, code: int)
    requires EncoderOk(p, codes, words, ent, input, j, i) && i < |input|
    requires Files(p, words, Key(p, input[i], ent), code)
    ensures code >= 0 && EncoderOk(p, codes, words, code, input, j, i + 1)
  {
    HitIsSound(p, words, input[i], ent, code);
    assert input[j..i] + [input[i]] == input[j..i + 1];
  }

  /** After putting out the held code and filing its word with the next byte, go on from that byte. */
  lemma NextCode(p: Params, codes: seq<nat>, words: seq<Word>, ent: nat, input: seq<byte>, j: nat, i: nat)
    requires p.Supported() && EncoderOk(p, codes, words, ent, input, j, i) && i < |input|
    ensures EncoderOk(p, codes + [ent], if |words| < p.Limit() then words + [words[ent] + [input[i]]] else words,
              input[i], input, i, i + 1)
    ensures !After(p, codes + [ent], |codes| + 1).restart
  {
    OneByte(input, i);
    HeldCode(p, codes, words, ent, input, j, i);
    ItemsSnoc(p, codes, ent);
    ValidSnoc(p, codes, ent);
    AfterOk(p, codes + [ent], |codes| + 1);
  }

  lemma OneByte(input: seq<byte>, i: nat)
    requires i < |input|
    ensures input[i..i + 1] == [input[i]]
  {
  }

  /** The code left at the end of the input completes the text. */
  lemma FinalCode(p: Params, codes: seq<nat>, words: seq<Word>, ent: nat, input: seq<byte>, j: nat)
    requires p.Supported() && EncoderOk(p, codes, words, ent, input, j, |input|)
    ensures Acceptable(p, After(p, codes, |codes|), ent) && !IsClear(p, After(p, codes, |codes|), ent)
    ensures |Decode(p, After(p, codes, |codes|), ent).words| == |words|
    ensures Valid(p, codes + [ent]) && Text(p, codes + [ent]) == input
  {
    HeldCode(p, codes, words, ent, input, j, |input|);
    ItemsSnoc(p, codes, ent);
    ValidSnoc(p, codes, ent);
    assert input[..|input|] == input;
  }

  lemma EncoderIsValid(p: Params, codes: seq<nat>, words: seq<Word>, ent: nat, input: seq<byte>, j: nat, i: nat)
    requires EncoderOk(p, codes, words, ent, input, j, i)
    ensures Valid(p, codes)
  {
  }

  /** CLEAR empties both dictionaries and changes nothing else. */
  lemma AfterClear(p: Params, codes: seq<nat>, words: seq<Word>, ent: nat, input: seq<byte>, j: nat)
    requires p.Supported() && p.block && codes != []
    requires EncoderOk(p, codes, words, ent, input, j, j + 1) && !After(p, codes, |codes|).restart
    ensures IsClear(p, After(p, codes, |codes|), CLEAR) && Acceptable(p, After(p, codes, |codes|), CLEAR)
    ensures EncoderOk(p, codes + [CLEAR], InitialWords(p), input[j], input, j, j + 1)
  {
    ItemsSnoc(p, codes, CLEAR);
    ValidSnoc(p, codes, CLEAR);
    AfterOk(p, codes + [CLEAR], |codes| + 1);
    assert input[j..j + 1] == [input[j]];
  }

  // ----- The longest word is taken -----

  /** As many words as pairs are filed, and the compressor is where the decompressor is. */
  lemma WhatIsFiled(p: Params, codes: seq<nat>, words: seq<Word>, ent: nat, input: seq<byte>, j: nat, i: nat)
    requires p.Supported() && EncoderOk(p, codes, words, ent, input, j, i)
    ensures |words| == p.FirstFree() + |Filed(p, codes, input, |codes|)| && Pos(p, codes, |codes|) == j && ent < |words|
  {
    hide Valid, Filed, WordsAre;
    FiledAreWords(p, codes, input, |codes|);
    CountIs(p, words, Filed(p, codes, input, |codes|));
  }

  /** The code held may follow: the longest word was taken, and nothing is to be cleared. */
  lemma RulesNext(p: Params, policy: Policy, codes: seq<nat>, words: seq<Word>, ent: nat, input: seq<byte>, j: nat, i: nat)
    requires p.Supported() && EncoderOk(p, codes, words, ent, input, j, i)
    requires Greedy(p, codes, input) && ClearsRight(p, policy, codes, input) && !ClearDue(p, policy, codes, input, |codes|)
    requires i < |input| ==> (ent, input[i]) == (0, 0) || (ent, input[i]) !in Filed(p, codes, input, |codes|)
    ensures Greedy(p, codes + [ent], input) && ClearsRight(p, policy, codes + [ent], input)
  {
    hide Valid, Filed, Greedy, ClearsRight, ClearDue;
    HeldCode(p, codes, words, ent, input, j, i);
    NextIsGreedy(p, codes, ent, input);
    GreedyOfPrefix(p, codes, ent, input);
    RightNext(p, policy, codes, ent, input);
  }

  /** What is filed next, and whether the table is looked at. */
  lemma FollowsNext(p: Params, policy: Policy, codes: seq<nat>, words: seq<Word>, ent: nat, input: seq<byte>, j: nat, i: nat)
    requires p.Supported() && EncoderOk(p, codes, words, ent, input, j, i) && i < |input|
    ensures var f := Filed(p, codes, input, |codes|);
      Filed(p, codes + [ent], input, |codes| + 1) == if |words| < p.Limit() then f + [(ent, input[i])] else f
    ensures var n, w := BytesOut(p, codes + [ent], |codes| + 1), WatchAt(p, policy, codes, input, |codes|);
      var looks := p.block && |words| >= p.Limit() && i + 1 >= w.checkpoint;
      && WatchAt(p, policy, codes + [ent], input, |codes| + 1) == (if looks then Looked(policy, w, i + 1, n) else w)
      && ClearDue(p, policy, codes + [ent], input, |codes| + 1) == (looks && NoBetter(policy, i + 1, n, w.ratio))
  {
    hide Valid, Filed, ClearDue, BytesOut, Looked, NoBetter, WatchAt;
    HeldCode(p, codes, words, ent, input, j, i);
    WhatIsFiled(p, codes, words, ent, input, j, i);
    FiledNext(p, codes, ent, input);
    AfterCode(p, policy, codes, ent, input);
  }

  /** CLEAR may follow where it is due. */
  lemma RulesClear(p: Params, policy: Policy, codes: seq<nat>, input: seq<byte>)
    requires Greedy(p, codes, input) && ClearsRight(p, policy, codes, input) && ClearDue(p, policy, codes, input, |codes|)
    requires IsClear(p, After(p, codes, |codes|), CLEAR)
    ensures Greedy(p, codes + [CLEAR], input) && ClearsRight(p, policy, codes + [CLEAR], input)
    ensures Filed(p, codes + [CLEAR], input, |codes| + 1) == [] && !ClearDue(p, policy, codes + [CLEAR], input, |codes| + 1)
    ensures WatchAt(p, policy, codes + [CLEAR], input, |codes| + 1) == WatchAt(p, policy, codes, input, |codes|)
  {
    hide Decode, Greedy, ClearsRight, ClearDue, WatchAt;
    ItemsSnoc(p, codes, CLEAR);
    GreedyOfPrefix(p, codes, CLEAR, input);
    RightNext(p, policy, codes, CLEAR, input);
    AfterClearing(p, policy, codes, CLEAR, input);
  }

  lemma HashInRange(p: Params, c: byte, ent: nat)
    requires p.Supported() && ent < p.Limit()
    ensures Start(c, ent) < HSIZE
  {
    Widths();
    Pow2Monotone(p.maxBits, BITS);
    ShlBound(c, 8, 8);
    XorBound(Shl(c, 8), ent, BITS);
  }

  lemma StartOfStream(p: Params, buf: seq<byte>)
    ensures Paced(p, []) && Placed(p, [] + buf, []) && Layout(p, [], 0) == Cursor(0, 0, INIT_BITS, MaxCode(INIT_BITS))
  {
  }

  class Compressor {
    const p: Params
    const policy: Policy
    const htab: array<int>
    const codetab: array<int>
    const buf: array<byte>
    var stdout: seq<byte>
    var nBits: nat
    var maxCode: nat
    var freeEnt: nat
    var offset: nat
    var clearFlg: bool
    var inCount: nat
    var bytesOut: nat
    var ratio: nat
    var checkpoint: nat
    /** What follows the header on stdout, and the codes in it as the stream layer sees them. */
    ghost var body: seq<byte>
    ghost var items: seq<Item>

    constructor (p: Params, policy: Policy)
      requires p.Supported()
      ensures this.p == p && this.policy == policy && fresh(htab) && fresh(codetab) && fresh(buf) && Allocated()
    {
      this.p, this.policy := p, policy;
      htab := new int[HSIZE];
      codetab := new int[HSIZE];
      buf := new byte[BITS];
      stdout, nBits, maxCode, freeEnt, offset, clearFlg := [], 0, 0, 0, 0, false;
      inCount, bytesOut, ratio, checkpoint := 0, 0, 0, 0;
      items, body := [], [];
    }

    ghost predicate Allocated()
    {
      && p.Supported()
      && htab.Length == HSIZE && codetab.Length == HSIZE && buf.Length == BITS
      && htab != codetab
    }

    /** Everything put out, or still in the buffer, is the wire form of `items`. */
    ghost predicate WriterOk()
      reads this, buf
    {
      && Allocated()
      && stdout == Header(p) + body && bytesOut == |stdout|
      && Paced(p, items)
      && Placed(p, body + buf[..], items)
      && At(Layout(p, items, |items|))
    }

    ghost predicate At(c: Cursor)
      reads this
    {
      |body| == c.base && offset == c.off && nBits == c.nBits && maxCode == c.maxCode
    }

    /** Put one code into the bit buffer; write the buffer when it is full or the width changes. */
    method Output(code: nat)
      requires WriterOk() && code < Pow2(nBits)
      requires freeEnt <= p.Limit() && freeEnt <= (if clearFlg then FIRST else Free(p, items, |items|) + 1)
      modifies `stdout, `body, `nBits, `maxCode, `offset, `clearFlg, `bytesOut, `items, buf
      ensures WriterOk() && !clearFlg
      ensures items == old(items) + [Item(code, old(clearFlg), freeEnt)]
    {
      ghost var before, cursor := items, Layout(p, items, |items|);
      ghost var item := Item(code, clearFlg, freeEnt);
      NextItem(p, before, item);
      PutInPlace(code);
      MoveOn(cursor, item);
    }

    /** After a code: write the buffer when it is full or the width is about to change. */
    method MoveOn(ghost cursor: Cursor, ghost item: Item)
      requires Allocated() && stdout == Header(p) + body && bytesOut == |stdout|
      requires Paced(p, items) && Placed(p, body + buf[..], items)
      requires At(cursor) && clearFlg == item.clear && freeEnt == item.free
      requires nBits <= BITS && offset + nBits <= 8 * nBits
      requires Layout(p, items, |items|) == Advance(p, cursor, item)
      modifies `stdout, `body, `nBits, `maxCode, `offset, `clearFlg, `bytesOut
      ensures WriterOk() && !clearFlg
    {
      offset := offset + nBits;
      if offset == nBits * 8 {
        WriteBuffer();
        offset := 0;
      }
      if freeEnt > maxCode || clearFlg {
        if offset > 0 {
          WriteBuffer();
        }
        offset := 0;
        if clearFlg {
          nBits := INIT_BITS;
          maxCode := MaxCode(nBits);
          clearFlg := false;
        } else {
          nBits := nBits + 1;
          maxCode := CapOf(p, nBits);
        }
      }
    }

    /** The bit-level half of `Output`. */
    method PutInPlace(code: nat)
      requires WriterOk() && code < Pow2(nBits) && offset + nBits <= 8 * nBits && INIT_BITS <= nBits <= BITS
      modifies `items, buf
      ensures items == old(items) + [Item(code, clearFlg, freeEnt)]
      ensures Placed(p, body + buf[..], items)
    {
      ghost var was := buf[..];
      ghost var item := Item(code, clearFlg, freeEnt);
      Insert(buf, offset, nBits, code);
      PlaceNext(p, body, was, buf[..], items, item);
      items := items + [item];
    }

    method WriteBuffer()
      requires Allocated() && stdout == Header(p) + body && nBits <= BITS && Paced(p, items)
      requires Placed(p, body + buf[..], items)
      requires Position(Layout(p, items, |items|)) <= 8 * (|body| + nBits)
      modifies `stdout, `body, `bytesOut
      ensures stdout == Header(p) + body && bytesOut == old(bytesOut) + nBits
      ensures body == old(body) + buf[..nBits]
      ensures Placed(p, body + buf[..], items)
    {
      FlushKeepsPlaced(p, body, buf[..], nBits, items);
      assert buf[..][..nBits] == buf[..nBits];
      stdout := stdout + buf[..nBits];
      body := body + buf[..nBits];
      bytesOut := bytesOut + nBits;
    }

    /** End of input: write the part of the buffer that holds codes. */
    method Flush()
      requires WriterOk() == true
      modifies `stdout, `body, `bytesOut, `offset
      ensures stdout == Header(p) + body && bytesOut == |stdout|
      ensures WireFormat(p, body, items)
    {
      var n := (offset + 7) / 8;
      assert Placed(p, body + buf[..n], items) by {
        LayoutOk(p, items, |items|);
        FlushKeepsPlaced(p, body, buf[..], n, items);
        assert buf[..][..n] == buf[..n];
      }
      if offset > 0 {
        stdout := stdout + buf[..n];
      }
      body := body + buf[..n];
      bytesOut := bytesOut + n;
      offset := 0;
    }

    // ----- The dictionary side -----

    /** Empty the table. */
    method ClHash()
      requires Allocated()
      modifies htab
      ensures forall words: seq<Word> :: TableOk(p, htab[..], codetab[..], words)
    {
      for i := 0 to HSIZE
        invariant forall j :: 0 <= j < i ==> htab[j] == -1
      {
        htab[i] := -1;
      }
    }

    /** Look for `fcode`, starting at slot `start`: its slot, or a slot where it may be filed. */
    method Probe(fcode: nat, start: nat) returns (hit: bool, i: nat)
      requires Allocated() && start < HSIZE && SearchEnds(htab[..])
      ensures i < HSIZE && (hit ==> htab[i] == fcode)
      ensures !hit ==> StopsAt(htab[..], start, i) && Misses(htab[..], start, fcode)
    {
      hide StopsAt, Misses, Passed, Slot, SearchEnds;
      FirstSlot(start);
      PassNone(htab[..], fcode, start);
      i := start;
      if htab[i] == fcode {
        return true, i;
      } else if htab[i] < 0 {
        Stopped(htab[..], fcode, start, 0);
        return false, i;
      }
      PassOne(htab[..], fcode, start, 0);
      var disp := if i == 0 then 1 else HSIZE - i;
      ghost var k := 1;
      while true
        invariant 1 <= k <= 65280 && i == Slot(start, disp, k - 1)
        invariant Passed(htab[..], fcode, start, k)
        decreases 65280 - k
      {
        NextSlot(start, disp, k);
        if i < disp {
          i := i - disp + HSIZE;
        } else {
          i := i - disp;
        }
        if htab[i] == fcode {
          return true, i;
        }
        if htab[i] <= 0 {
          Stopped(htab[..], fcode, start, k);
          return false, i;
        }
        PassOne(htab[..], fcode, start, k);
        k := k + 1;
        PassedFew(htab[..], fcode, start, k);
      }
    }

    /** The writer carries the items of `codes`, and the table files the words of the encoder. */
    ghost predicate TablesOk(codes: seq<nat>, words: seq<Word>)
      reads this, htab, codetab, buf
    {
      && WriterOk() && items == Items(p, codes) && !clearFlg
      && freeEnt == |words|
      && TableOk(p, htab[..], codetab[..], words)
    }

    /**
     The whole state of the main loop. Methods that merely pass it on compare it with `true`:
     it is then taken whole, not conjunct by conjunct.
     */
    ghost predicate LoopOk(codes: seq<nat>, words: seq<Word>, ent: nat, input: seq<byte>, j: nat, i: nat)
      reads this, htab, codetab, buf
    {
      EncoderOk(p, codes, words, ent, input, j, i) && TablesOk(codes, words) && ChoiceOk(codes, input)
    }

    /** So far both rules were followed, what is filed is found, and the next look is the one that is due. */
    ghost predicate ChoiceOk(codes: seq<nat>, input: seq<byte>)
      reads this, htab
    {
      RulesOk(codes, input) && !ClearDue(p, policy, codes, input, |codes|)
    }

    ghost predicate RulesOk(codes: seq<nat>, input: seq<byte>)
      reads this, htab
    {
      && Greedy(p, codes, input) && ClearsRight(p, policy, codes, input)
      && FindsAll(p, htab[..], Filed(p, codes, input, |codes|))
      && Watch(checkpoint, ratio) == WatchAt(p, policy, codes, input, |codes|)
    }

    /** All codes are put out. */
    ghost predicate DoneOk(codes: seq<nat>, input: seq<byte>)
      reads this, buf
    {
      && WriterOk() && items == Items(p, codes) && Valid(p, codes) && Text(p, codes) == input
      && Greedy(p, codes, input) && ClearsRight(p, policy, codes, input)
    }

    /** Put out a code that the reference decoder accepts. */
    method OutputCode(code: nat, ghost codes: seq<nat>)
      requires WriterOk() && items == Items(p, codes) && Valid(p, codes)
      requires Acceptable(p, After(p, codes, |codes|), code)
      requires clearFlg == IsClear(p, After(p, codes, |codes|), code)
      requires freeEnt == |Decode(p, After(p, codes, |codes|), code).words|
      modifies `stdout, `body, `nBits, `maxCode, `offset, `clearFlg, `bytesOut, `items, buf
      ensures WriterOk() && !clearFlg && items == Items(p, codes + [code])
    {
      ghost var d := After(p, codes, |codes|);
      AfterOk(p, codes, |codes|);
      DecodeKeepsOk(p, d, code);
      FreeIsWords(p, codes, |codes|);
      LayoutOk(p, items, |items|);
      CodeFits(p, d, Layout(p, items, |items|), code);
      ItemsSnoc(p, codes, code);
      Output(code);
    }

    /** Whether compression has got no better since the last look; the ratio is then forgotten. */
    method GotNoBetter() returns (clear: bool)
      requires bytesOut > 0
      modifies `ratio
      ensures clear == NoBetter(policy, inCount, bytesOut, old(ratio))
      ensures ratio == Looked(policy, Watch(checkpoint, old(ratio)), inCount, bytesOut).ratio
    {
      if policy.Chosen? {
        return policy.clear(inCount);
      }
      var rat;
      if inCount > 0x007fffff {
        rat := bytesOut / 256;
        rat := if rat == 0 then 0x7fffffff else inCount / rat;
      } else {
        rat := inCount * 256 / bytesOut;
      }
      clear := rat <= ratio;
      ratio := if clear then 0 else rat;
    }

    /** When compression gets no better, clear the table and tell the decompressor. */
    method ClBlock(ghost codes: seq<nat>, ghost words: seq<Word>, ghost input: seq<byte>, ghost j: nat)
      returns (ghost codes': seq<nat>, ghost words': seq<Word>)
      requires p.block && codes != [] && j < |input| && !After(p, codes, |codes|).restart
      requires TablesOk(codes, words) == true && EncoderOk(p, codes, words, input[j], input, j, j + 1) == true
      requires Greedy(p, codes, input) && ClearsRight(p, policy, codes, input)
      requires FindsAll(p, htab[..], Filed(p, codes, input, |codes|))
      requires bytesOut > 0
      requires WatchAt(p, policy, codes, input, |codes|) == Looked(policy, Watch(checkpoint, ratio), inCount, bytesOut)
      requires ClearDue(p, policy, codes, input, |codes|) == NoBetter(policy, inCount, bytesOut, ratio)
      modifies `checkpoint, `ratio, `freeEnt
      modifies `stdout, `body, `nBits, `maxCode, `offset, `clearFlg, `bytesOut, `items, buf, htab
      ensures LoopOk(codes', words', input[j], input, j, j + 1) == true
    {
      hide EncoderOk, TableOk, Placed, Paced, Layout, Greedy, ClearsRight, FindsAll, Filed, ClearDue, WatchAt;
      checkpoint := inCount + Gap(policy);
      var clear := GotNoBetter();
      codes', words' := codes, words;
      if clear {
        codes', words' := StartOver(codes, words, input, j);
      }
    }

    method StartOver(ghost codes: seq<nat>, ghost words: seq<Word>, ghost input: seq<byte>, ghost j: nat)
      returns (ghost codes': seq<nat>, ghost words': seq<Word>)
      requires p.block && codes != [] && j < |input| && !After(p, codes, |codes|).restart
      requires TablesOk(codes, words) == true && EncoderOk(p, codes, words, input[j], input, j, j + 1) == true
      requires RulesOk(codes, input) && ClearDue(p, policy, codes, input, |codes|)
      modifies `freeEnt, `stdout, `body, `nBits, `maxCode, `offset, `clearFlg, `bytesOut, `items, buf, htab
      ensures LoopOk(codes', words', input[j], input, j, j + 1) == true && codes' == codes + [CLEAR]
    {
      hide EncoderOk, Greedy, FindsAll, Filed, ClearsRight, ClearDue, WatchAt, Placed, Paced, Layout, TableOk;
      AfterClear(p, codes, words, input[j], input, j);
      EncoderIsValid(p, codes, words, input[j], input, j, j + 1);
      RulesClear(p, policy, codes, input);
      PutOutClear(codes);
      codes', words' := codes + [CLEAR], InitialWords(p);
      NothingFiled(p, htab[..]);
    }

    /** Empty the table and put out the code for it. */
    method PutOutClear(ghost codes: seq<nat>)
      requires WriterOk() && items == Items(p, codes) && Valid(p, codes)
      requires IsClear(p, After(p, codes, |codes|), CLEAR) && Acceptable(p, After(p, codes, |codes|), CLEAR)
      modifies `freeEnt, `stdout, `body, `nBits, `maxCode, `offset, `clearFlg, `bytesOut, `items, buf, htab
      ensures TablesOk(codes + [CLEAR], InitialWords(p))
    {
      ClHash();
      freeEnt := FIRST;
      clearFlg := true;
      OutputCode(CLEAR, codes);
    }

    /** Write the header. */
    method Begin()
      requires Allocated()
      modifies this
      ensures WriterOk() && items == [] && !clearFlg && freeEnt == p.FirstFree() && inCount == 1
      ensures Watch(checkpoint, ratio) == Watch(Gap(policy), 0)
    {
      StartOfStream(p, buf[..]);
      stdout, body, items := Header(p), [], [];
      offset, bytesOut, clearFlg, ratio, inCount, checkpoint := 0, 3, false, 0, 1, Gap(policy);
      nBits := INIT_BITS;
      maxCode := MaxCode(nBits);
      freeEnt := p.FirstFree();
    }

    /** Compress the whole input. `expanded` tells that nothing was saved. */
    method Compress(input: seq<byte>) returns (expanded: bool, ghost codes: seq<nat>)
      requires Allocated()
      modifies this, htab, codetab, buf
      ensures stdout == Header(p) + body && Encodes(p, body, codes, input) && Follows(p, policy, codes, input)
      ensures expanded == (|stdout| > (if |input| == 0 then 1 else |input|))
    {
      hide WriterOk, WireFormat, Placed, Paced, Layout, Valid, Text, Items, TableOk, Greedy, ClearsRight;
      Begin();
      codes := CompressAll(input);
      Flush();
      expanded := bytesOut > inCount;
    }

    /** At the end of an empty input there is no code left to put out. */
    method CompressAll(input: seq<byte>) returns (ghost codes: seq<nat>)
      requires WriterOk() == true && items == [] && !clearFlg && freeEnt == p.FirstFree() && inCount == 1
      requires Watch(checkpoint, ratio) == Watch(Gap(policy), 0)
      modifies this, htab, codetab, buf
      ensures DoneOk(codes, input) == true && inCount == (if |input| == 0 then 1 else |input|)
    {
      codes := [];
      if |input| > 0 {
        ClHash();
        codes := CompressBytes(input);
      }
    }

    lemma LoopStart(input: seq<byte>)
      requires Allocated() && |input| > 0 && TablesOk([], InitialWords(p)) == true
      requires Watch(checkpoint, ratio) == Watch(Gap(policy), 0)
      ensures LoopOk([], InitialWords(p), input[0], input, 0, 1) == true
    {
      hide TablesOk, EncoderOk, Finds;
      StartOfText(p, input);
    }

    /** The main loop, and the code left over at the end of the input. */
    method CompressBytes(input: seq<byte>) returns (ghost codes: seq<nat>)
      requires Allocated() && |input| > 0 && TablesOk([], InitialWords(p)) == true && inCount == 1
      requires Watch(checkpoint, ratio) == Watch(Gap(policy), 0)
      modifies this, htab, codetab, buf
      ensures DoneOk(codes, input) == true && inCount == |input|
    {
      hide LoopOk, DoneOk, TablesOk;
      var ent: nat := input[0];
      ghost var words, j := InitialWords(p), 0;
      codes := [];
      LoopStart(input);
      var i := 1;
      while i < |input|
        invariant 1 <= i <= |input| && inCount == i
        invariant LoopOk(codes, words, ent, input, j, i) == true
      {
        var c := GetByte(input, i, ent, codes, words, j);
        ent, codes, words, j := NextByte(c, ent, codes, words, input, j, i);
        i := i + 1;
      }
      codes := LastCode(ent, codes, words, input, j);
    }

    /** Read a byte and count it. */
    method GetByte(input: seq<byte>, i: nat, ent: nat, ghost codes: seq<nat>, ghost words: seq<Word>, ghost j: nat)
      returns (c: byte)
      requires i < |input| && LoopOk(codes, words, ent, input, j, i) == true
      modifies `inCount
      ensures c == input[i] && inCount == old(inCount) + 1
      ensures LoopOk(codes, words, ent, input, j, i) == true
    {
      hide EncoderOk, TableOk, Placed, Paced, Layout, Valid, Items;
      c := input[i];
      inCount := inCount + 1;
    }

    method LastCode(ent: nat, ghost codes: seq<nat>, ghost words: seq<Word>, ghost input: seq<byte>, ghost j: nat)
      returns (ghost codes': seq<nat>)
      requires LoopOk(codes, words, ent, input, j, |input|) == true
      modifies `stdout, `body, `nBits, `maxCode, `offset, `clearFlg, `bytesOut, `items, buf
      ensures DoneOk(codes', input)
    {
      hide Greedy, Filed, FindsAll, ClearsRight, ClearDue, WatchAt, Placed, Paced, Layout, TableOk;
      RulesNext(p, policy, codes, words, ent, input, j, |input|);
      FinalCode(p, codes, words, ent, input, j);
      OutputCode(ent, codes);
      codes' := codes + [ent];
    }

    /** Extend the word held by one byte, or put out its code and start a new word. */
    method NextByte(c: byte, ent: nat, ghost codes: seq<nat>, ghost words: seq<Word>,
                    ghost input: seq<byte>, ghost j: nat, ghost i: nat)
      returns (ent': nat, ghost codes': seq<nat>, ghost words': seq<Word>, ghost j': nat)
      requires i < |input| && c == input[i] && LoopOk(codes, words, ent, input, j, i) == true && inCount == i + 1
      modifies `checkpoint, `ratio, `freeEnt
      modifies `stdout, `body, `nBits, `maxCode, `offset, `clearFlg, `bytesOut, `items, buf, htab, codetab
      ensures LoopOk(codes', words', ent', input, j', i + 1) == true
    {
      var fcode := Key(p, c, ent);
      HashInRange(p, c, ent);
      SearchIsBounded(p, htab[..], codetab[..], words);
      var hit, slot := Probe(fcode, Start(c, ent));
      if hit {
        HitExtends(p, codes, words, ent, input, j, i, codetab[slot]);
        return codetab[slot], codes, words, j;
      }
      MissedIsNotFound(p, htab[..], (ent, c));
      ent', j' := c, i;
      codes', words' := EndWord(c, ent, slot, codes, words, input, j, i);
    }

    /** Put out the code held, and file its word with the next byte if there is room. */
    method EndWord(c: byte, ent: nat, slot: nat, ghost codes: seq<nat>, ghost words: seq<Word>,
                   ghost input: seq<byte>, ghost j: nat, ghost i: nat)
      returns (ghost codes': seq<nat>, ghost words': seq<Word>)
      requires i < |input| && c == input[i] && slot < HSIZE && LoopOk(codes, words, ent, input, j, i) == true
      requires inCount == i + 1
      requires Start(c, ent) < HSIZE && StopsAt(htab[..], Start(c, ent), slot) && !Finds(p, htab[..], (ent, c))
      modifies `checkpoint, `ratio, `freeEnt
      modifies `stdout, `body, `nBits, `maxCode, `offset, `clearFlg, `bytesOut, `items, buf, htab, codetab
      ensures LoopOk(codes', words', c, input, i, i + 1) == true
    {
      hide EncoderOk, Finds, StopsAt, Start, Filed, Greedy, ClearsRight, ClearDue, WatchAt;
      hide Placed, Paced, Layout, TableOk, Looked, NoBetter, BytesOut;
      NextCode(p, codes, words, ent, input, j, i);
      RulesNext(p, policy, codes, words, ent, input, j, i);
      FollowsNext(p, policy, codes, words, ent, input, j, i);
      OutputHeld(ent, codes, words, input, j, i);
      codes', words' := codes + [ent], words;
      WrittenIs(codes');
      WhatIsFiled(p, codes, words, ent, input, j, i);
      if freeEnt < p.Limit() {
        FilingFinds(p, htab[..], Filed(p, codes, input, |codes|), (ent, c), slot);
        words' := FileWord(c, ent, slot, codes', words);
      } else if inCount >= checkpoint && p.block {
        codes', words' := ClBlock(codes', words', input, i);
      }
    }

    lemma WrittenIs(codes: seq<nat>)
      requires WriterOk() && items == Items(p, codes)
      ensures bytesOut == BytesOut(p, codes, |codes|) && |stdout| == bytesOut
    {
      hide Placed, Paced, Layout;
    }

    /** Put out the code held. */
    method OutputHeld(ent: nat, ghost codes: seq<nat>, ghost words: seq<Word>, ghost input: seq<byte>, ghost j: nat, ghost i: nat)
      requires LoopOk(codes, words, ent, input, j, i) == true
      modifies `stdout, `body, `nBits, `maxCode, `offset, `clearFlg, `bytesOut, `items, buf
      ensures TablesOk(codes + [ent], words)
    {
      HeldCode(p, codes, words, ent, input, j, i);
      OutputCode(ent, codes);
    }

    /** File the word of `ent` extended by `c` under the next free code. */
    method FileWord(c: byte, ent: nat, slot: nat, ghost codes: seq<nat>, ghost words: seq<Word>)
      returns (ghost words': seq<Word>)
      requires TablesOk(codes, words) == true && ent < |words| < p.Limit() && p.FirstFree() <= |words| && slot < HSIZE
      modifies `freeEnt, htab, codetab
      ensures words' == words + [words[ent] + [c]] && TablesOk(codes, words')
      ensures htab[..] == old(htab[..])[slot := Key(p, c, ent)]
    {
      FilingKeepsOk(p, htab[..], codetab[..], words, slot, c, ent);
      codetab[slot] := freeEnt;
      htab[slot] := Key(p, c, ent);
      freeEnt := freeEnt + 1;
      words' := words + [words[ent] + [c]];
    }
  }
}
