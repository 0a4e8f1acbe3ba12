/**
 When a compressor clears its dictionary: once it is full, at every `gap` bytes of input it looks whether
 compression still gets better. With the rule for the words taken this leaves one code list for an input.
 */
module LzwClear {
  import opened Bits
  import opened LzwCodes
  import opened LzwGreedy
  import opened LzwStream

  const CHECK_GAP: nat := 10000

  /**
   When a full table is cleared: by the compression ratio, looked at every CHECK_GAP bytes, as the program
   does; or by any other choice, looked at after `gap` bytes.
   */
  datatype Policy = ByRatio | Chosen(gap: nat, clear: nat -> bool)

  function Gap(policy: Policy): nat {
    if policy.Chosen? then policy.gap else CHECK_GAP
  }

  /** What the bytes read are to the bytes written, in 256ths; coarser once the product would not fit. */
  function Rate(inCount: nat, bytesOut: nat): nat
    requires bytesOut > 0
  {
    if inCount <= 0x7fffff then inCount * 256 / bytesOut
    else if bytesOut / 256 == 0 then 0x7fffffff
    else inCount / (bytesOut / 256)
  }

  lemma Quotient(a: nat, b: nat, q: nat)
    requires b > 0
    ensures a / b <= q <==> a < (q + 1) * b
  {
    assert a == b * (a / b) + a % b;
    if a / b <= q {
      Times(a / b, q, b);
      assert (q + 1) * b == q * b + b;
    } else {
      Times(q + 1, a / b, b);
    }
  }

  lemma Times(x: nat, y: nat, b: nat)
    requires x <= y
    ensures x * b <= y * b
  {
    assert y * b == x * b + (y - x) * b;
  }

  predicate NoBetter(policy: Policy, inCount: nat, bytesOut: nat, ratio: nat)
    requires bytesOut > 0
  {
    if policy.Chosen? then policy.clear(inCount) else Rate(inCount, bytesOut) <= ratio
  }

  /** When the program's rule gives up: bytes read per bytes written do not surpass the last ratio. */
  lemma GivesUpIff(inCount: nat, bytesOut: nat, ratio: nat)
    requires bytesOut > 0
    ensures inCount <= 0x7fffff ==> (NoBetter(ByRatio, inCount, bytesOut, ratio) <==> inCount * 256 < (ratio + 1) * bytesOut)
    ensures inCount > 0x7fffff && bytesOut >= 256 ==>
      (NoBetter(ByRatio, inCount, bytesOut, ratio) <==> inCount < (ratio + 1) * (bytesOut / 256))
  {
    if inCount <= 0x7fffff {
      Quotient(inCount * 256, bytesOut, ratio);
    } else if bytesOut >= 256 {
      Quotient(inCount, bytesOut / 256, ratio);
    }
  }

  /** From how many bytes on to look again, and the ratio to surpass then. */
  datatype Watch = Watch(checkpoint: nat, ratio: nat)

  function Looked(policy: Policy, w: Watch, inCount: nat, bytesOut: nat): Watch
    requires bytesOut > 0
  {
    Watch(inCount + Gap(policy),
      if policy.Chosen? then w.ratio else if NoBetter(policy, inCount, bytesOut, w.ratio) then 0 else Rate(inCount, bytesOut))
  }

  /** How many bytes have left the buffer, with the header, after `k` codes. */
  ghost function BytesOut(p: Params, codes: seq<nat>, k: nat): (n: nat)
    requires k <= |codes|
    ensures n >= 3
  {
    3 + Layout(p, ItemsUpTo(p, codes, k), k).base
  }

  /** The dictionary is looked at after code `k`: it was full, and the time has come. */
  ghost predicate Looks(p: Params, policy: Policy, codes: seq<nat>, input: seq<byte>, k: nat)
    requires k < |codes|
    decreases k, 1
  {
    && p.block && !ClearAt(p, codes, k) && p.FirstFree() + |Filed(p, codes, input, k)| >= p.Limit()
    && Pos(p, codes, k + 1) < |input| && Pos(p, codes, k + 1) + 1 >= WatchAt(p, policy, codes, input, k).checkpoint
  }

  ghost function WatchAt(p: Params, policy: Policy, codes: seq<nat>, input: seq<byte>, k: nat): Watch
    requires k <= |codes|
    decreases k, 0
  {
    if k == 0 then Watch(Gap(policy), 0)
    else
      var w := WatchAt(p, policy, codes, input, k - 1);
      if Looks(p, policy, codes, input, k - 1) then Looked(policy, w, Pos(p, codes, k) + 1, BytesOut(p, codes, k)) else w
  }

  /** Compression has got no better after code `k`. */
  ghost predicate GivesUp(p: Params, policy: Policy, codes: seq<nat>, input: seq<byte>, k: nat)
    requires k < |codes|
  {
    && Looks(p, policy, codes, input, k)
    && NoBetter(policy, Pos(p, codes, k + 1) + 1, BytesOut(p, codes, k + 1), WatchAt(p, policy, codes, input, k).ratio)
  }

  /** The dictionary is to be cleared after the first `k` codes. */
  ghost predicate ClearDue(p: Params, policy: Policy, codes: seq<nat>, input: seq<byte>, k: nat)
    requires k <= |codes|
  {
    k > 0 && GivesUp(p, policy, codes, input, k - 1)
  }

  ghost predicate ClearRight(p: Params, policy: Policy, codes: seq<nat>, input: seq<byte>, k: nat)
    requires k < |codes|
  {
    ClearAt(p, codes, k) <==> ClearDue(p, policy, codes, input, k)
  }

  /** CLEAR is put out when it is due, and only then. */
  ghost predicate ClearsRight(p: Params, policy: Policy, codes: seq<nat>, input: seq<byte>) {
    forall k :: 0 <= k < |codes| ==> ClearRight(p, policy, codes, input, k)
  }

  lemma {:induction false} CheckpointGrows(p: Params, policy: Policy, codes: seq<nat>, input: seq<byte>, j: nat, k: nat)
    requires j <= k <= |codes|
    ensures WatchAt(p, policy, codes, input, j).checkpoint <= WatchAt(p, policy, codes, input, k).checkpoint
  {
    if j < k { CheckpointGrows(p, policy, codes, input, j, k - 1); }
  }

  /** Between two looks at least the gap is read, and before the first one. */
  lemma LooksApart(p: Params, policy: Policy, codes: seq<nat>, input: seq<byte>, j: nat, k: nat)
    requires j < k < |codes| && Looks(p, policy, codes, input, k)
    ensures Pos(p, codes, k + 1) + 1 >= Gap(policy)
    ensures Looks(p, policy, codes, input, j) ==> Pos(p, codes, k + 1) >= Pos(p, codes, j + 1) + Gap(policy)
  {
    hide Pos, Filed, BytesOut, ClearAt;
    CheckpointGrows(p, policy, codes, input, 0, k);
    CheckpointGrows(p, policy, codes, input, j + 1, k);
  }

  // ----- One code more -----

  lemma SameFacts(p: Params, codes: seq<nat>, more: seq<nat>, input: seq<byte>, k: nat)
    requires k <= |codes|
    ensures Pos(p, codes + more, k) == Pos(p, codes, k) && BytesOut(p, codes + more, k) == BytesOut(p, codes, k)
    ensures Filed(p, codes + more, input, k) == Filed(p, codes, input, k)
    ensures k < |codes| ==> ClearAt(p, codes + more, k) == ClearAt(p, codes, k)
  {
    hide Filed, Layout, ItemsUpTo, Decode;
    AfterOfPrefix(p, codes, more, k);
    ItemsOfPrefix(p, codes, more, k);
    FiledOfPrefix(p, codes, more, input, k);
  }

  lemma {:induction false} WatchOfPrefix(p: Params, policy: Policy, codes: seq<nat>, more: seq<nat>, input: seq<byte>, k: nat)
    requires k <= |codes|
    ensures WatchAt(p, policy, codes + more, input, k) == WatchAt(p, policy, codes, input, k)
  {
    hide Pos, BytesOut, Filed, ClearAt, Looked, Looks;
    if k > 0 {
      WatchOfPrefix(p, policy, codes, more, input, k - 1);
      LooksOfPrefix(p, policy, codes, more, input, k - 1);
      SameFacts(p, codes, more, input, k);
    }
  }

  lemma {:induction false} LooksOfPrefix(p: Params, policy: Policy, codes: seq<nat>, more: seq<nat>, input: seq<byte>, k: nat)
    requires k < |codes|
    requires WatchAt(p, policy, codes + more, input, k) == WatchAt(p, policy, codes, input, k)
    ensures Looks(p, policy, codes + more, input, k) == Looks(p, policy, codes, input, k)
  {
    hide Pos, BytesOut, Filed, ClearAt, WatchAt;
    SameFacts(p, codes, more, input, k);
    SameFacts(p, codes, more, input, k + 1);
  }

  lemma DueOfPrefix(p: Params, policy: Policy, codes: seq<nat>, more: seq<nat>, input: seq<byte>, k: nat)
    requires k <= |codes|
    ensures ClearDue(p, policy, codes + more, input, k) == ClearDue(p, policy, codes, input, k)
  {
    hide Pos, BytesOut, Filed, ClearAt, WatchAt, Looks, NoBetter;
    if k > 0 {
      WatchOfPrefix(p, policy, codes, more, input, k - 1);
      LooksOfPrefix(p, policy, codes, more, input, k - 1);
      SameFacts(p, codes, more, input, k);
    }
  }

  lemma RightOfPrefix(p: Params, policy: Policy, codes: seq<nat>, more: seq<nat>, input: seq<byte>, k: nat)
    requires k < |codes|
    ensures ClearRight(p, policy, codes + more, input, k) == ClearRight(p, policy, codes, input, k)
  {
    hide Pos, BytesOut, Filed, ClearAt, ClearDue;
    DueOfPrefix(p, policy, codes, more, input, k);
    SameFacts(p, codes, more, input, k);
  }

  lemma LastRight(p: Params, policy: Policy, codes: seq<nat>, code: nat, input: seq<byte>)
    ensures ClearRight(p, policy, codes + [code], input, |codes|) <==>
      IsClear(p, After(p, codes, |codes|), code) == ClearDue(p, policy, codes, input, |codes|)
  {
    hide ClearDue, Decode;
    AfterOfPrefix(p, codes, [code], |codes|);
    DueOfPrefix(p, policy, codes, [code], input, |codes|);
  }

  /** A code that is CLEAR exactly if that is due keeps the list right. */
  lemma RightNext(p: Params, policy: Policy, codes: seq<nat>, code: nat, input: seq<byte>)
    requires ClearsRight(p, policy, codes, input)
    requires IsClear(p, After(p, codes, |codes|), code) == ClearDue(p, policy, codes, input, |codes|)
    ensures ClearsRight(p, policy, codes + [code], input)
  {
    hide ClearDue, ClearAt, ClearRight, IsClear;
    forall k | 0 <= k < |codes| + 1
      ensures ClearRight(p, policy, codes + [code], input, k)
    {
      if k < |codes| {
        RightOfPrefix(p, policy, codes, [code], input, k);
      } else {
        LastRight(p, policy, codes, code, input);
      }
    }
  }

  /** What a code other than CLEAR leads to: the dictionary is looked at, or not. */
  lemma AfterCode(p: Params, policy: Policy, codes: seq<nat>, code: nat, input: seq<byte>)
    requires !IsClear(p, After(p, codes, |codes|), code)
    ensures var n, all, w := |codes|, codes + [code], WatchAt(p, policy, codes, input, |codes|);
      var i := |Decode(p, After(p, codes, n), code).text|;
      var looks := p.block && p.FirstFree() + |Filed(p, codes, input, n)| >= p.Limit() && i < |input| && i + 1 >= w.checkpoint;
      && WatchAt(p, policy, all, input, n + 1) == (if looks then Looked(policy, w, i + 1, BytesOut(p, all, n + 1)) else w)
      && ClearDue(p, policy, all, input, n + 1) == (looks && NoBetter(policy, i + 1, BytesOut(p, all, n + 1), w.ratio))
  {
    hide Decode, Filed, BytesOut, Looked, NoBetter;
    ItemsSnoc(p, codes, code);
    SameFacts(p, codes, [code], input, |codes|);
    WatchOfPrefix(p, policy, codes, [code], input, |codes|);
  }

  lemma AfterClearing(p: Params, policy: Policy, codes: seq<nat>, code: nat, input: seq<byte>)
    requires IsClear(p, After(p, codes, |codes|), code)
    ensures WatchAt(p, policy, codes + [code], input, |codes| + 1) == WatchAt(p, policy, codes, input, |codes|)
    ensures !ClearDue(p, policy, codes + [code], input, |codes| + 1)
  {
    hide Decode, Filed, BytesOut, Looked, NoBetter;
    AfterOfPrefix(p, codes, [code], |codes|);
    WatchOfPrefix(p, policy, codes, [code], input, |codes|);
  }

  // ----- One code list for an input -----

  ghost predicate Follows(p: Params, policy: Policy, codes: seq<nat>, input: seq<byte>) {
    && Valid(p, codes) && Text(p, codes) == input
    && Greedy(p, codes, input) && ClearsRight(p, policy, codes, input)
  }

  /** At the end of the text there is no further code. */
  lemma EndsThere(p: Params, policy: Policy, codes: seq<nat>, input: seq<byte>, k: nat)
    requires p.Supported() && Follows(p, policy, codes, input) && k < |codes|
    ensures Pos(p, codes, k) < |input|
  {
    hide Decode, WatchAt, BytesOut, Filed, NoBetter, Greedy, Valid;
    assert input[..|input|] == input;
    CoversBefore(p, codes, input, k + 1, |codes|);
    CoversBefore(p, codes, input, k, k + 1);
    assert ClearRight(p, policy, codes, input, k);
    if !ClearAt(p, codes, k) { Longer(p, codes, k); }
  }

  lemma Longer(p: Params, codes: seq<nat>, k: nat)
    requires p.Supported() && Valid(p, codes) && k < |codes| && !ClearAt(p, codes, k)
    ensures Pos(p, codes, k) < Pos(p, codes, k + 1)
  {
    assert AcceptableAt(p, codes, k);
    AfterOk(p, codes, k);
    DecodeKeepsOk(p, After(p, codes, k), codes[k]);
  }

  /** Facts about the first `k` codes are the same of two lists that begin alike. */
  lemma BeginAlike(p: Params, policy: Policy, a: seq<nat>, b: seq<nat>, input: seq<byte>, k: nat)
    requires k <= |a| && k <= |b| && a[..k] == b[..k]
    ensures After(p, a, k) == After(p, b, k) && Filed(p, a, input, k) == Filed(p, b, input, k)
    ensures ClearDue(p, policy, a, input, k) == ClearDue(p, policy, b, input, k)
    ensures Dictionary(p, a, input, k) == Dictionary(p, b, input, k)
  {
    hide After, Filed, ClearDue;
    assert a == a[..k] + a[k..] && b == b[..k] + b[k..];
    AfterOfPrefix(p, a[..k], a[k..], k);
    AfterOfPrefix(p, b[..k], b[k..], k);
    FiledOfPrefix(p, a[..k], a[k..], input, k);
    FiledOfPrefix(p, b[..k], b[k..], input, k);
    DueOfPrefix(p, policy, a[..k], a[k..], input, k);
    DueOfPrefix(p, policy, b[..k], b[k..], input, k);
  }

  /** No code stands for a shorter word than another could that begins alike. */
  lemma NoShorter(p: Params, policy: Policy, a: seq<nat>, b: seq<nat>, input: seq<byte>, k: nat)
    requires p.Supported() && Follows(p, policy, a, input) && Follows(p, policy, b, input) && NoZeros(input)
    requires k < |a| && k < |b| && a[..k] == b[..k] && !ClearAt(p, a, k) && !ClearAt(p, b, k)
    ensures Pos(p, a, k + 1) >= Pos(p, b, k + 1)
  {
    hide Decode, Valid, After, Filed, Greedy, ClearsRight;
    BeginAlike(p, policy, a, b, input, k);
    EndsThere(p, policy, a, input, k);
    if Pos(p, a, k + 1) < Pos(p, b, k + 1) {
      Taken(p, b, input, k);
      LongestIsTaken(p, a, input, k, Pos(p, b, k + 1) - Pos(p, a, k));
    }
  }

  /** The word of a code is in the dictionary, and stands in the input. */
  lemma Taken(p: Params, codes: seq<nat>, input: seq<byte>, k: nat)
    requires p.Supported() && Valid(p, codes) && Text(p, codes) == input
    requires k < |codes| && !ClearAt(p, codes, k) && Pos(p, codes, k) < |input|
    ensures var i, j, words := Pos(p, codes, k), Pos(p, codes, k + 1), Dictionary(p, codes, input, k);
      && i < j <= |input| && codes[k] < |words| && words[codes[k]] == input[i..j]
  {
    hide Decode, Valid, Dictionary;
    assert input[..|input|] == input;
    CoversBefore(p, codes, input, k + 1, |codes|);
    CoversBefore(p, codes, input, k, k + 1);
    DictionaryStep(p, codes, input, k);
    WordStands(p, codes, input, k);
  }

  /** Two lists that follow both rules and begin alike go on alike. */
  lemma SameCode(p: Params, policy: Policy, a: seq<nat>, b: seq<nat>, input: seq<byte>, k: nat)
    requires p.Supported() && Follows(p, policy, a, input) && Follows(p, policy, b, input) && NoZeros(input)
    requires k < |a| && k < |b| && a[..k] == b[..k]
    ensures a[k] == b[k]
  {
    hide Decode, Valid, After, Filed, Greedy, ClearDue, Dictionary;
    BeginAlike(p, policy, a, b, input, k);
    assert ClearRight(p, policy, a, input, k) && ClearRight(p, policy, b, input, k);
    if !ClearAt(p, a, k) {
      NoShorter(p, policy, a, b, input, k);
      NoShorter(p, policy, b, a, input, k);
      EndsThere(p, policy, a, input, k);
      Taken(p, a, input, k);
      Taken(p, b, input, k);
      OneEntry(p, policy, a, b, input, k);
    }
  }

  lemma OneEntry(p: Params, policy: Policy, a: seq<nat>, b: seq<nat>, input: seq<byte>, k: nat)
    requires p.Supported() && Follows(p, policy, a, input) && NoZeros(input)
    requires k < |a| && k < |b| && a[..k] == b[..k] && Pos(p, a, k) < |input|
    requires var words := Dictionary(p, a, input, k);
      a[k] < |words| && b[k] < |words| && words[a[k]] == words[b[k]] != []
    ensures a[k] == b[k]
  {
    hide Decode, Valid, Filed, ClearDue, Dictionary, Greedy;
    assert input[..|input|] == input;
    CoversBefore(p, a, input, k, |a|);
    FiledAreWords(p, a, input, k);
    FiledOnce(p, a, input, k);
    SameWord(p, Dictionary(p, a, input, k), Filed(p, a, input, k), a[k], b[k]);
  }

  /** A list that the other begins with is the whole of it. */
  lemma NoneAfter(p: Params, policy: Policy, a: seq<nat>, b: seq<nat>, input: seq<byte>)
    requires p.Supported() && Follows(p, policy, a, input) && Follows(p, policy, b, input)
    requires |a| <= |b| && a[..|a|] == b[..|a|]
    ensures a == b
  {
    hide After, Greedy, ClearsRight, Valid;
    BeginAlike(p, policy, a, b, input, |a|);
    if |a| < |b| { EndsThere(p, policy, b, input, |a|); }
  }

  /** On an input without two zero bytes in a row the two rules leave one code list. */
  lemma OneCodeList(p: Params, policy: Policy, a: seq<nat>, b: seq<nat>, input: seq<byte>)
    requires p.Supported() && Follows(p, policy, a, input) && Follows(p, policy, b, input) && NoZeros(input)
    ensures a == b
  {
    hide Follows, NoZeros;
    AlikeUpTo(p, policy, a, b, input, Min(|a|, |b|));
    if |a| <= |b| {
      NoneAfter(p, policy, a, b, input);
    } else {
      NoneAfter(p, policy, b, a, input);
    }
  }

  lemma {:induction false} AlikeUpTo(p: Params, policy: Policy, a: seq<nat>, b: seq<nat>, input: seq<byte>, k: nat)
    requires p.Supported() && Follows(p, policy, a, input) && Follows(p, policy, b, input) && NoZeros(input)
    requires k <= |a| && k <= |b|
    ensures a[..k] == b[..k]
  {
    hide Follows;
    if k > 0 {
      AlikeUpTo(p, policy, a, b, input, k - 1);
      SameCode(p, policy, a, b, input, k - 1);
      assert a[..k] == a[..k - 1] + [a[k - 1]] && b[..k] == b[..k - 1] + [b[k - 1]];
    }
  }
}
