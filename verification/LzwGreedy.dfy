/**
 Which words a compressor takes. It puts a code out only when that code and the byte that follows have not
 been filed; so, but for one pair, each code stands for the longest word of the dictionary there is.
 */
module LzwGreedy {
  import opened Bits
  import opened LzwCodes
  import opened LzwStream

  /** A code and the byte that followed its word. */
  type Pair = (nat, byte)

  /** Where the text of the first `k` codes ends. */
  ghost function Pos(p: Params, codes: seq<nat>, k: nat): nat
    requires k <= |codes|
  {
    |After(p, codes, k).text|
  }

  ghost predicate ClearAt(p: Params, codes: seq<nat>, k: nat)
    requires k < |codes|
  {
    IsClear(p, After(p, codes, k), codes[k])
  }

  /** The pairs filed since the last CLEAR, once the first `k` codes are put out; a full dictionary takes no more. */
  ghost function Filed(p: Params, codes: seq<nat>, input: seq<byte>, k: nat): seq<Pair>
    requires k <= |codes|
  {
    if k == 0 || ClearAt(p, codes, k - 1) then []
    else
      var f := Filed(p, codes, input, k - 1);
      var i := Pos(p, codes, k);
      if i < |input| && p.FirstFree() + |f| < p.Limit() then f + [(codes[k - 1], input[i])] else f
  }

  /** Code `k` was put out because the table has no entry for it and the next byte; of the pair (0, 0) nothing is said. */
  ghost predicate GreedyAt(p: Params, codes: seq<nat>, input: seq<byte>, k: nat)
    requires k < |codes|
  {
    !ClearAt(p, codes, k) && Pos(p, codes, k + 1) < |input| ==>
      var pair := (codes[k], input[Pos(p, codes, k + 1)]);
      pair == (0, 0) || pair !in Filed(p, codes, input, k)
  }

  ghost predicate Greedy(p: Params, codes: seq<nat>, input: seq<byte>) {
    forall k :: 0 <= k < |codes| ==> GreedyAt(p, codes, input, k)
  }

  lemma {:induction false} FiledOfPrefix(p: Params, codes: seq<nat>, more: seq<nat>, input: seq<byte>, k: nat)
    requires k <= |codes|
    ensures Filed(p, codes + more, input, k) == Filed(p, codes, input, k)
  {
    if k > 0 {
      FiledOfPrefix(p, codes, more, input, k - 1);
      AfterOfPrefix(p, codes, more, k - 1);
      AfterOfPrefix(p, codes, more, k);
    }
  }

  lemma GreedyOfPrefix(p: Params, codes: seq<nat>, code: nat, input: seq<byte>)
    requires Greedy(p, codes, input) && GreedyAt(p, codes + [code], input, |codes|)
    ensures Greedy(p, codes + [code], input)
  {
    hide GreedyAt;
    forall k | 0 <= k < |codes| + 1
      ensures GreedyAt(p, codes + [code], input, k)
    {
      if k < |codes| { SameGreedyAt(p, codes, code, input, k); }
    }
  }

  lemma SameGreedyAt(p: Params, codes: seq<nat>, code: nat, input: seq<byte>, k: nat)
    requires k < |codes| && GreedyAt(p, codes, input, k)
    ensures GreedyAt(p, codes + [code], input, k)
  {
    hide Decode, Filed;
    FiledOfPrefix(p, codes, [code], input, k);
    AfterOfPrefix(p, codes, [code], k);
    AfterOfPrefix(p, codes, [code], k + 1);
  }

  /** What is filed when one more code is put out. */
  lemma FiledNext(p: Params, codes: seq<nat>, code: nat, input: seq<byte>)
    requires !IsClear(p, After(p, codes, |codes|), code)
    ensures var f, i := Filed(p, codes, input, |codes|), |Decode(p, After(p, codes, |codes|), code).text|;
      Filed(p, codes + [code], input, |codes| + 1) ==
        if i < |input| && p.FirstFree() + |f| < p.Limit() then f + [(code, input[i])] else f
  {
    hide Decode;
    ItemsSnoc(p, codes, code);
    FiledOfPrefix(p, codes, [code], input, |codes|);
    assert Filed(p, codes + [code], input, |codes| + 1) ==
      (var f := Filed(p, codes + [code], input, |codes|); var i := Pos(p, codes + [code], |codes| + 1);
       if i < |input| && p.FirstFree() + |f| < p.Limit() then f + [((codes + [code])[|codes|], input[i])] else f);
  }

  lemma NextIsGreedy(p: Params, codes: seq<nat>, code: nat, input: seq<byte>)
    requires var i := |Decode(p, After(p, codes, |codes|), code).text|;
      i < |input| ==> (code, input[i]) == (0, 0) || (code, input[i]) !in Filed(p, codes, input, |codes|)
    ensures GreedyAt(p, codes + [code], input, |codes|)
  {
    hide Decode, Filed;
    ItemsSnoc(p, codes, code);
    FiledOfPrefix(p, codes, [code], input, |codes|);
  }

  // ----- The dictionary the compressor goes by -----

  /** The dictionary at the time code `k` is chosen: the decompressor's, and the entry it has yet to complete. */
  ghost function Dictionary(p: Params, codes: seq<nat>, input: seq<byte>, k: nat): seq<Word>
    requires k <= |codes|
  {
    var d := After(p, codes, k);
    Learn(p, d, if |d.text| < |input| then input[|d.text|] else 0)
  }

  /** The codes stand for a beginning of the input. */
  ghost predicate Covers(p: Params, codes: seq<nat>, input: seq<byte>, k: nat)
    requires k <= |codes|
  {
    Pos(p, codes, k) <= |input| && After(p, codes, k).text == input[..Pos(p, codes, k)]
  }

  lemma {:induction false} CoversBefore(p: Params, codes: seq<nat>, input: seq<byte>, k: nat, n: nat)
    requires k <= n <= |codes| && Covers(p, codes, input, n)
    ensures Covers(p, codes, input, k) && Pos(p, codes, k) <= Pos(p, codes, n)
    decreases n - k
  {
    hide After;
    if k < n {
      CoversBefore(p, codes, input, k + 1, n);
      TextGrows(p, codes, k);
      BeginningOf(After(p, codes, k).text, After(p, codes, k + 1).text, input);
    }
  }

  lemma TextGrows(p: Params, codes: seq<nat>, k: nat)
    requires k < |codes|
    ensures After(p, codes, k).text <= After(p, codes, k + 1).text
  {
  }

  lemma BeginningOf(t: seq<byte>, u: seq<byte>, input: seq<byte>)
    requires t <= u && |u| <= |input| && u == input[..|u|]
    ensures t == input[..|t|]
  {
  }

  /** One code on: the word that is learnt is the one of the pair that is filed. */
  lemma DictionaryStep(p: Params, codes: seq<nat>, input: seq<byte>, k: nat)
    requires p.Supported() && Valid(p, codes) && k < |codes| && !ClearAt(p, codes, k)
    requires Covers(p, codes, input, k + 1) && Pos(p, codes, k) < |input|
    ensures var d, w := Dictionary(p, codes, input, k), After(p, codes, k + 1);
      && codes[k] < |d| && d[codes[k]] == WordOf(After(p, codes, k), codes[k]) == w.prev && w.words == d && !w.restart
      && Pos(p, codes, k + 1) == Pos(p, codes, k) + |w.prev| && w.prev != []
  {
    var d, code := After(p, codes, k), codes[k];
    assert AcceptableAt(p, codes, k);
    AfterOk(p, codes, k);
    DecodeKeepsOk(p, d, code);
    var w := WordOf(d, code);
    assert After(p, codes, k + 1).text == d.text + w;
    assert input[|d.text|] == (d.text + w)[|d.text|] == w[0];
  }

  /** The dictionary holds one word for each pair filed, behind the initial ones. */
  ghost predicate WordsAre(p: Params, words: seq<Word>, filed: seq<Pair>) {
    && |words| == p.FirstFree() + |filed| && words[..p.FirstFree()] == InitialWords(p)
    && forall e :: 0 <= e < |filed| ==> WordAt(p, words, filed, e)
  }

  ghost predicate WordAt(p: Params, words: seq<Word>, filed: seq<Pair>, e: nat)
    requires e < |filed| && |words| == p.FirstFree() + |filed|
  {
    filed[e].0 < p.FirstFree() + e && words[filed[e].0] != [] && words[p.FirstFree() + e] == words[filed[e].0] + [filed[e].1]
  }

  lemma WordsMore(p: Params, words: seq<Word>, filed: seq<Pair>, pair: Pair)
    requires WordsAre(p, words, filed) && pair.0 < |words| && words[pair.0] != []
    ensures WordsAre(p, words + [words[pair.0] + [pair.1]], filed + [pair])
  {
    var w, f := words + [words[pair.0] + [pair.1]], filed + [pair];
    assert w[..p.FirstFree()] == words[..p.FirstFree()];
    forall e | 0 <= e < |f|
      ensures WordAt(p, w, f, e)
    {
      if e < |filed| { assert WordAt(p, words, filed, e); }
    }
  }

  /** The dictionary one code on. */
  lemma DictionaryNext(p: Params, codes: seq<nat>, input: seq<byte>, k: nat)
    requires p.Supported() && Valid(p, codes) && 0 < k <= |codes| && !ClearAt(p, codes, k - 1)
    requires Covers(p, codes, input, k) && Pos(p, codes, k) < |input|
    ensures Pos(p, codes, k - 1) < |input| && Covers(p, codes, input, k - 1)
    ensures var words, pair := Dictionary(p, codes, input, k - 1), (codes[k - 1], input[Pos(p, codes, k)]);
      && pair.0 < |words| && words[pair.0] != []
      && Dictionary(p, codes, input, k) == if |words| < p.Limit() then words + [words[pair.0] + [pair.1]] else words
  {
    hide Valid, Decode, Dictionary, Covers;
    CoversBefore(p, codes, input, k - 1, k);
    DictionaryStep(p, codes, input, k - 1);
    DictionaryIs(p, codes, input, k);
  }

  lemma DictionaryIs(p: Params, codes: seq<nat>, input: seq<byte>, k: nat)
    requires k <= |codes| && Pos(p, codes, k) < |input|
    ensures Dictionary(p, codes, input, k) == Learn(p, After(p, codes, k), input[Pos(p, codes, k)])
  {
  }

  lemma ClearedDictionary(p: Params, codes: seq<nat>, input: seq<byte>, k: nat)
    requires k <= |codes| && (k == 0 || ClearAt(p, codes, k - 1))
    ensures Dictionary(p, codes, input, k) == InitialWords(p)
  {
  }

  /** The compressor's dictionary is what the filed pairs make it. */
  lemma {:induction false} FiledAreWords(p: Params, codes: seq<nat>, input: seq<byte>, k: nat)
    requires p.Supported() && Valid(p, codes) && k <= |codes| && Covers(p, codes, input, k) && Pos(p, codes, k) < |input|
    ensures WordsAre(p, Dictionary(p, codes, input, k), Filed(p, codes, input, k))
  {
    hide WordsAre, Dictionary, Valid, After, Covers, Pos, ClearAt;
    if k == 0 || ClearAt(p, codes, k - 1) {
      InitialAre(p);
      ClearedDictionary(p, codes, input, k);
    } else {
      DictionaryNext(p, codes, input, k);
      FiledAreWords(p, codes, input, k - 1);
      var words, filed := Dictionary(p, codes, input, k - 1), Filed(p, codes, input, k - 1);
      CountIs(p, words, filed);
      if |words| < p.Limit() { WordsMore(p, words, filed, (codes[k - 1], input[Pos(p, codes, k)])); }
    }
  }

  lemma InitialAre(p: Params)
    ensures WordsAre(p, InitialWords(p), [])
  {
  }

  lemma CountIs(p: Params, words: seq<Word>, filed: seq<Pair>)
    requires WordsAre(p, words, filed)
    ensures |words| == p.FirstFree() + |filed|
  {
  }

  // ----- The longest word there is -----

  /** No two zero bytes in a row: the pair (0, 0) is never filed. */
  predicate NoZeros(input: seq<byte>) {
    forall i :: 0 <= i < |input| - 1 ==> !(input[i] == 0 && input[i + 1] == 0)
  }

  ghost predicate NoPairTwice(filed: seq<Pair>) {
    forall i, j :: 0 <= i < j < |filed| ==> filed[i] != filed[j]
  }

  lemma {:induction false} FiledOnce(p: Params, codes: seq<nat>, input: seq<byte>, k: nat)
    requires p.Supported() && Valid(p, codes) && k <= |codes| && Covers(p, codes, input, k) && Pos(p, codes, k) < |input|
    requires Greedy(p, codes, input) && NoZeros(input)
    ensures NoPairTwice(Filed(p, codes, input, k))
  {
    hide Dictionary, Valid, After, Covers, Pos, ClearAt;
    if k > 0 && !ClearAt(p, codes, k - 1) {
      DictionaryNext(p, codes, input, k);
      FiledOnce(p, codes, input, k - 1);
      assert GreedyAt(p, codes, input, k - 1);
      NotBothZero(p, codes, input, k);
    }
  }

  lemma NotBothZero(p: Params, codes: seq<nat>, input: seq<byte>, k: nat)
    requires p.Supported() && Valid(p, codes) && 0 < k <= |codes| && !ClearAt(p, codes, k - 1)
    requires Covers(p, codes, input, k) && Pos(p, codes, k) < |input| && NoZeros(input)
    ensures (codes[k - 1], input[Pos(p, codes, k)]) != (0, 0)
  {
    hide Dictionary, Decode, Filed;
    CoversBefore(p, codes, input, k - 1, k);
    DictionaryStep(p, codes, input, k - 1);
    AfterOk(p, codes, k - 1);
    AfterOk(p, codes, k);
    var i := Pos(p, codes, k);
    if codes[k - 1] == 0 {
      var w := After(p, codes, k);
      assert w.prev == w.words[0] == [0];
      LastByte(p, codes, k);
      assert input[..i][i - 1] == input[i - 1];
    }
  }

  lemma LastByte(p: Params, codes: seq<nat>, k: nat)
    requires 0 < k <= |codes| && !ClearAt(p, codes, k - 1) && After(p, codes, k).prev == [0]
    ensures var t := After(p, codes, k).text; t != [] && t[|t| - 1] == 0
  {
  }

  /** Different codes stand for different words. */
  lemma {:induction false} SameWord(p: Params, words: seq<Word>, filed: seq<Pair>, a: nat, b: nat)
    requires WordsAre(p, words, filed) && NoPairTwice(filed) && a < |words| && b < |words| && words[a] == words[b] != []
    ensures a == b
    decreases a + b
  {
    var n := p.FirstFree();
    assert forall i :: 0 <= i < n ==> words[i] == words[..n][i] == InitialWords(p)[i];
    if a >= n { WordLong(p, words, filed, a); }
    if b >= n { WordLong(p, words, filed, b); }
    if a >= n && b >= n {
      var x, y := filed[a - n], filed[b - n];
      Cut(words[x.0], x.1, words[y.0], y.1);
      SameWord(p, words, filed, x.0, y.0);
    }
  }

  lemma WordLong(p: Params, words: seq<Word>, filed: seq<Pair>, a: nat)
    requires WordsAre(p, words, filed) && p.FirstFree() <= a < |words|
    ensures |words[a]| >= 2 && WordAt(p, words, filed, a - p.FirstFree())
  {
    assert WordAt(p, words, filed, a - p.FirstFree());
  }

  lemma Cut(v: Word, c: byte, w: Word, d: byte)
    requires v + [c] == w + [d]
    ensures v == w && c == d
  {
    assert (v + [c])[|v|] == c && (w + [d])[|w|] == d;
    assert v == (v + [c])[..|v|] == (w + [d])[..|w|] == w;
  }

  /** If a word of the dictionary goes on where another ends, there is an entry for that and the byte that follows. */
  lemma {:induction false} EntryOnTheWay(p: Params, words: seq<Word>, filed: seq<Pair>, code: nat, e: nat)
    requires WordsAre(p, words, filed) && NoPairTwice(filed) && code < |words| && e < |words|
    requires words[code] != [] && words[code] < words[e]
    ensures (code, words[e][|words[code]|]) in filed
    decreases e
  {
    var n := p.FirstFree();
    assert forall i :: 0 <= i < n ==> words[i] == words[..n][i] == InitialWords(p)[i];
    assert e >= n && WordAt(p, words, filed, e - n);
    var x := filed[e - n];
    if |words[e]| == |words[code]| + 1 {
      assert words[code] == words[e][..|words[code]|] == words[x.0];
      SameWord(p, words, filed, code, x.0);
    } else {
      assert words[x.0] == words[e][..|words[e]| - 1];
      EntryOnTheWay(p, words, filed, code, x.0);
    }
  }

  /**
   Each code stands for a word of the dictionary, and no longer word of it stands there in the input: the
   longest is taken.
   */
  lemma LongestIsTaken(p: Params, codes: seq<nat>, input: seq<byte>, k: nat, l: nat)
    requires p.Supported() && Valid(p, codes) && Text(p, codes) == input && Greedy(p, codes, input) && NoZeros(input)
    requires k < |codes| && !ClearAt(p, codes, k)
    requires Pos(p, codes, k) < |input| && Pos(p, codes, k + 1) < Pos(p, codes, k) + l <= |input|
    ensures var i := Pos(p, codes, k); var words := Dictionary(p, codes, input, k);
      && codes[k] < |words| && words[codes[k]] == input[i..Pos(p, codes, k + 1)]
      && input[i..i + l] !in words
  {
    hide Valid, Dictionary, Filed, Decode;
    assert input[..|input|] == input;
    CoversBefore(p, codes, input, k + 1, |codes|);
    CoversBefore(p, codes, input, k, k + 1);
    DictionaryStep(p, codes, input, k);
    FiledAreWords(p, codes, input, k);
    FiledOnce(p, codes, input, k);
    var i, j := Pos(p, codes, k), Pos(p, codes, k + 1);
    var words := Dictionary(p, codes, input, k);
    WordStands(p, codes, input, k);
    if input[i..i + l] in words {
      var e :| 0 <= e < |words| && words[e] == input[i..i + l];
      assert words[e][..j - i] == input[i..j];
      EntryOnTheWay(p, words, Filed(p, codes, input, k), codes[k], e);
      assert words[e][j - i] == input[j];
      assert GreedyAt(p, codes, input, k);
      NotBothZero(p, codes, input, k + 1);
      assert false;
    }
  }

  lemma WordStands(p: Params, codes: seq<nat>, input: seq<byte>, k: nat)
    requires k < |codes| && !ClearAt(p, codes, k) && Covers(p, codes, input, k) && Covers(p, codes, input, k + 1)
    requires Pos(p, codes, k) <= Pos(p, codes, k + 1)
    ensures input[Pos(p, codes, k)..Pos(p, codes, k + 1)] == After(p, codes, k + 1).prev
  {
    var t, u := After(p, codes, k).text, After(p, codes, k + 1);
    assert u.text == t + u.prev == input[..|u.text|];
    assert u.prev == u.text[|t|..];
  }
}
