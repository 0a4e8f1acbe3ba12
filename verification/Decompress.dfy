/** The decompressor: its input side (`GetCode`) and its table of prefixes and suffixes. */
module Decompress {
  import opened Bits
  import opened LzwStream
  import opened LzwCodes
  import opened LzwBuffer
  import opened LzwHash

  /** Room for the output stack: what is left of the hash table behind 2^16 suffix bytes. */
  const DE_STACK: nat := 210468

  /** The bytes fetched for a chunk hold its codes where the stream holds them. */
  lemma CodeAtChunk(stream: seq<byte>, buf: seq<byte>, c: Cursor, n: nat, code: nat)
    requires CodeAt(stream, c, code) && c.base + n <= |stream| && n <= |buf|
    requires buf[..n] == stream[c.base..c.base + n] && c.off + c.nBits <= 8 * n
    ensures CodeAt(buf, c.(base := 0, maxCode := 0), code)
  {
    var c0 := c.(base := 0, maxCode := 0);
    forall b | 0 <= b < c.nBits
      ensures StreamBit(buf, Position(c0) + b) == Bit(code, b)
    {
      var i := Position(c0) + b;
      assert StreamBit(stream, Position(c) + b) == Bit(code, b);
      assert (Position(c) + b) / 8 == c.base + i / 8 && (Position(c) + b) % 8 == i % 8;
      assert buf[i / 8] == buf[..n][i / 8] == stream[c.base..c.base + n][i / 8];
    }
  }

  /** The first chunk, and every later one, is long enough for the codes it holds. */
  lemma ChunkHolds(p: Params, stream: seq<byte>, items: seq<Item>, k: nat)
    requires p.Supported() && Carries(p, stream, items) && k < |items|
    ensures var c := Layout(p, items, k);
      && CodeAt(stream, c, items[k].code) && items[k].code < Pow2(c.nBits)
      && INIT_BITS <= c.nBits <= BITS && c.base <= |stream|
      && c.off + c.nBits <= 8 * ChunkLength(stream, c)
  {
    var c := Layout(p, items, k);
    LayoutOk(p, items, k);
    assert HeldAt(p, stream, items, k) && PacedAt(p, items, k);
  }

  /** From the code at `c` to the one at `next`, which begins a chunk or lies in the same one. */
  lemma FromCodeToCode(p: Params, stream: seq<byte>, c: Cursor, next: Cursor, item: Item)
    requires next == Advance(p, c, item) && c.nBits > 0 && c.off + c.nBits <= 8 * c.nBits
    requires EighthOf(next.off, next.nBits)
    ensures next.off == 0 ==> next.base == c.base + c.nBits
    ensures next.off == 0 && next.base <= |stream| ==> ChunkLength(stream, c) == c.nBits
    ensures Ended(stream, next) && c.base <= |stream| ==> c.base + ChunkLength(stream, c) == |stream|
    ensures next.off == 0 <==> item.clear || item.free > c.maxCode || c.off + c.nBits == 8 * c.nBits
  {
  }

  /** What lies ahead of the reader when `k` items are read. */
  lemma WhatComes(p: Params, stream: seq<byte>, items: seq<Item>, k: nat)
    requires p.Supported() && Carries(p, stream, items) == true && k <= |items|
    ensures var next := Layout(p, items, k);
      && INIT_BITS <= next.nBits <= BITS
      && (k < |items| ==> next.base <= |stream| && next.off + next.nBits <= 8 * ChunkLength(stream, next))
      && (k == |items| ==> Ended(stream, next))
      && (k == |items| == 0 ==> stream == [])
    ensures k > 0 ==> var c, next, item := Layout(p, items, k - 1), Layout(p, items, k), items[k - 1];
      && next == Advance(p, c, item) && INIT_BITS <= c.nBits <= BITS
      && c.off + c.nBits <= 8 * c.nBits
      && (next.off == 0 ==> next.base == c.base + c.nBits)
      && (k < |items| && next.off == 0 ==> ChunkLength(stream, c) == c.nBits)
      && (k == |items| && c.base <= |stream| ==> c.base + ChunkLength(stream, c) == |stream|)
      && (next.off == 0 <==> item.clear || item.free > c.maxCode || c.off + c.nBits == 8 * c.nBits)
  {
    hide Placed, EighthOf;
    LayoutOk(p, items, k);
    if k < |items| {
      ChunkHolds(p, stream, items, k);
    }
    if k > 0 {
      var c := Layout(p, items, k - 1);
      LayoutOk(p, items, k - 1);
      assert PacedAt(p, items, k - 1);
      AdvanceKeepsOk(p, c, items[k - 1], Free(p, items, k - 1));
      hide Advance, Ended, ChunkLength, PacedAt, Paced;
      FromCodeToCode(p, stream, c, Layout(p, items, k), items[k - 1]);
    }
  }

  // ----- The prefix and suffix tables, seen through the dictionary `words` -----

  /** Codes that name a word; in block mode 256 does not. */
  predicate Refers(p: Params, c: nat) {
    c < 256 || p.FirstFree() <= c
  }

  ghost predicate LinkOk(p: Params, words: seq<Word>, prefix: seq<nat>, suffix: seq<byte>, c: nat)
    requires c < |words| && c < |prefix| && c < |suffix|
  {
    prefix[c] < c && Refers(p, prefix[c]) && words[c] == words[prefix[c]] + [suffix[c]]
  }

  /** Following prefixes from any code spells its word backwards. */
  ghost predicate Chains(p: Params, words: seq<Word>, prefix: seq<nat>, suffix: seq<byte>) {
    && 256 <= |words| <= |suffix| <= |prefix|
    && (forall c :: 0 <= c < 256 ==> suffix[c] == c)
    && (forall c :: p.FirstFree() <= c < |words| ==> LinkOk(p, words, prefix, suffix, c))
  }

  lemma LearnKeepsChains(p: Params, words: seq<Word>, prefix: seq<nat>, suffix: seq<byte>, oldCode: nat, fin: byte)
    requires Chains(p, words, prefix, suffix) && p.FirstFree() <= |words| < |suffix|
    requires oldCode < |words| && Refers(p, oldCode)
    ensures Chains(p, words + [words[oldCode] + [fin]], prefix[|words| := oldCode], suffix[|words| := fin])
  {
    var words', prefix', suffix' := words + [words[oldCode] + [fin]], prefix[|words| := oldCode], suffix[|words| := fin];
    forall c | p.FirstFree() <= c < |words'|
      ensures LinkOk(p, words', prefix', suffix', c)
    {
      if c < |words| {
        assert LinkOk(p, words, prefix, suffix, c);
      }
    }
  }

  /**
   The entry that is made once `oldCode` has been read fits some dictionary exactly if that code names a
   word. The program does not test it: after a code that it should not admit, the next entry refers to itself
   or to one that does not exist.
   */
  lemma EntryFitsIff(p: Params, words: seq<Word>, prefix: seq<nat>, suffix: seq<byte>, oldCode: nat, fin: byte)
    requires Chains(p, words, prefix, suffix) && p.FirstFree() <= |words| < |suffix|
    ensures (exists w :: Chains(p, words + [w], prefix[|words| := oldCode], suffix[|words| := fin]))
      <==> oldCode < |words| && Refers(p, oldCode)
  {
    if oldCode < |words| && Refers(p, oldCode) {
      LearnKeepsChains(p, words, prefix, suffix, oldCode, fin);
    }
    if w :| Chains(p, words + [w], prefix[|words| := oldCode], suffix[|words| := fin]) {
      assert LinkOk(p, words + [w], prefix[|words| := oldCode], suffix[|words| := fin], |words|);
    }
  }

  /** Entry 256 is written after CLEAR, but no chain goes through it. */
  lemma UnusedEntry(p: Params, words: seq<Word>, prefix: seq<nat>, suffix: seq<byte>, oldCode: nat, fin: byte)
    requires p.block && Chains(p, words, prefix, suffix) && |suffix| > CLEAR
    ensures Chains(p, words, prefix[CLEAR := oldCode], suffix[CLEAR := fin])
  {
    var prefix', suffix' := prefix[CLEAR := oldCode], suffix[CLEAR := fin];
    forall c | p.FirstFree() <= c < |words|
      ensures LinkOk(p, words, prefix', suffix', c)
    {
      assert LinkOk(p, words, prefix, suffix, c);
    }
  }

  /** What reading code `k` does, in terms of the state before it. */
  lemma CodeStep(p: Params, codes: seq<nat>, k: nat)
    requires p.Supported() && Valid(p, codes) && k < |codes|
    ensures var d, code := After(p, codes, k), codes[k];
      && Acceptable(p, d, code) && Items(p, codes)[k] == ItemOf(p, d, code)
      && After(p, codes, k + 1) == Decode(p, d, code) && DecodedOk(p, Decode(p, d, code))
  {
    assert AcceptableAt(p, codes, k);
    ItemAt(p, codes, |codes|, k);
    AfterOk(p, codes, k + 1);
  }

  function Reversed(s: seq<byte>): seq<byte> {
    if s == [] then [] else [s[|s| - 1]] + Reversed(s[..|s| - 1])
  }

  lemma ReversedPush(s: seq<byte>, x: byte)
    ensures Reversed(s + [x]) == [x] + Reversed(s)
  {
    assert (s + [x])[..|s|] == s;
  }

  class Decompressor {
    const p: Params
    const tabPrefix: array<nat>
    const tabSuffix: array<byte>
    const deStack: array<byte>
    const buf: array<byte>
    var stdin: seq<byte>
    var stdout: seq<byte>
    var nBits: nat
    var maxCode: nat
    var freeEnt: nat
    var offset: nat
    var size: int
    var clearFlg: bool

    constructor (p: Params, stdin: seq<byte>)
      requires p.Supported()
      ensures this.p == p && this.stdin == stdin && Allocated() && AtStart(stdin)
      ensures stdout == [] && fresh(tabPrefix) && fresh(tabSuffix) && fresh(deStack) && fresh(buf)
    {
      this.p, this.stdin, this.stdout := p, stdin, [];
      tabPrefix := new nat[HSIZE];
      tabSuffix := new byte[65536];
      deStack := new byte[DE_STACK];
      buf := new byte[BITS];
      nBits, maxCode, freeEnt := INIT_BITS, MaxCode(INIT_BITS), p.FirstFree();
      offset, size, clearFlg := 0, 0, false;
    }

    ghost predicate Allocated() {
      && p.Supported()
      && tabPrefix.Length == HSIZE && tabSuffix.Length == 65536
      && deStack.Length == DE_STACK && buf.Length == BITS
      && tabSuffix != deStack && tabSuffix != buf && deStack != buf
    }

    /** Nothing has been read yet. */
    ghost predicate AtStart(stream: seq<byte>)
      reads this
    {
      && stdin == stream && offset == 0 && size == 0 && !clearFlg
      && nBits == INIT_BITS && maxCode == MaxCode(INIT_BITS) && freeEnt == p.FirstFree()
    }

    /** The chunk at `c` is in the buffer, read up to bit `off`; the rest is still to come. */
    ghost predicate Buffered(stream: seq<byte>, c: Cursor, off: nat)
      reads this, buf
    {
      var n := ChunkLength(stream, c);
      && buf.Length == BITS && c.base + n <= |stream| && n <= BITS
      && nBits == c.nBits && maxCode == c.maxCode && offset == off
      && size == 8 * n - (nBits - 1)
      && buf[..n] == stream[c.base..c.base + n]
      && stdin == stream[c.base + n..]
    }

    ghost predicate AfterCodeAt(stream: seq<byte>, c: Cursor)
      reads this, buf
    {
      Buffered(stream, c, c.off + c.nBits)
    }

    /** `k` items are read, and the caller has taken note of the last one. */
    ghost predicate ReaderOk(stream: seq<byte>, items: seq<Item>, k: nat)
      reads this, buf
    {
      && Allocated() && Carries(p, stream, items) && k <= |items|
      && (if k == 0 then AtStart(stream)
          else
            && AfterCodeAt(stream, Layout(p, items, k - 1))
            && clearFlg == items[k - 1].clear
            && (if clearFlg then freeEnt == FIRST - 1 else freeEnt == items[k - 1].free))
    }

    /** The next code, or -1 at the end of the stream. */
    method GetCode(ghost stream: seq<byte>, ghost items: seq<Item>, ghost k: nat) returns (code: int)
      requires ReaderOk(stream, items, k) == true
      modifies `stdin, `nBits, `maxCode, `offset, `size, `clearFlg, buf
      ensures if k == |items| then code == -1
        else code == items[k].code && AfterCodeAt(stream, Layout(p, items, k)) && !clearFlg
    {
      hide Placed, Paced, Carries, Layout, ChunkLength;
      ghost var next := Layout(p, items, k);
      var more := NextChunk(stream, items, k);
      if !more {
        return -1;
      }
      ChunkHolds(p, stream, items, k);
      CodeAtChunk(stream, buf[..], next, ChunkLength(stream, next), items[k].code);
      code := Extract(buf, offset, nBits);
      SameCode(buf[..], next.(base := 0, maxCode := 0), code, items[k].code);
      offset := offset + nBits;
    }

    /** Make sure that the next code is in the buffer; false at the end of the input. */
    method NextChunk(ghost stream: seq<byte>, ghost items: seq<Item>, ghost k: nat) returns (more: bool)
      requires ReaderOk(stream, items, k) == true
      modifies `stdin, `nBits, `maxCode, `offset, `size, `clearFlg, buf
      ensures more == (k < |items|)
      ensures more ==> !clearFlg && Buffered(stream, Layout(p, items, k), Layout(p, items, k).off)
    {
      hide Placed, Paced, Carries;
      ghost var next := Layout(p, items, k);
      WhatComes(p, stream, items, k);
      if clearFlg || offset >= size || freeEnt > maxCode {
        more := Refill(stream, if k == |items| then next.(base := |stream|) else next);
      } else {
        more := true;
      }
    }

    /** Adjust the code width and read a new buffer full; false at the end of the input. */
    method Refill(ghost stream: seq<byte>, ghost next: Cursor) returns (more: bool)
      requires Allocated() && next.base <= |stream| && INIT_BITS <= next.nBits <= BITS
      requires stdin == stream[next.base..]
      requires next.nBits == (if clearFlg then INIT_BITS else if freeEnt > maxCode then nBits + 1 else nBits)
      requires next.maxCode == (if clearFlg then MaxCode(INIT_BITS) else if freeEnt > maxCode then CapOf(p, nBits + 1) else maxCode)
      modifies `stdin, `nBits, `maxCode, `offset, `size, `clearFlg, buf
      ensures more == (next.base < |stream|)
      ensures more ==> !clearFlg && Buffered(stream, next, 0) == true
    {
      if freeEnt > maxCode {
        nBits := nBits + 1;
        maxCode := CapOf(p, nBits);
      }
      if clearFlg {
        nBits := INIT_BITS;
        maxCode := MaxCode(nBits);
        clearFlg := false;
      }
      more := Fill(stream, next);
    }

    method Fill(ghost stream: seq<byte>, ghost next: Cursor) returns (more: bool)
      requires buf.Length == BITS && next.base <= |stream| && INIT_BITS <= nBits <= BITS
      requires stdin == stream[next.base..] && nBits == next.nBits && maxCode == next.maxCode
      modifies `stdin, `offset, `size, buf
      ensures more == (next.base < |stream|)
      ensures more ==> Buffered(stream, next, 0)
    {
      var n := Min(nBits, |stdin|);
      forall i | 0 <= i < n {
        buf[i] := stdin[i];
      }
      assert n == ChunkLength(stream, next);
      assert buf[..n] == stdin[..n] == stream[next.base..next.base + n];
      stdin := stdin[n..];
      if n == 0 {
        return false;
      }
      offset := 0;
      size := 8 * n - (nBits - 1);
      more := true;
    }

    // ----- The dictionary side -----

    /** What the loop knows of the last code and of the next free entry. */
    ghost predicate LastCodeOk(d: Decoded, oldCode: nat, finChar: byte)
      reads this, tabPrefix, tabSuffix
    {
      && DecodedOk(p, d)
      && Chains(p, d.words, tabPrefix[..], tabSuffix[..])
      && (d.restart ==> p.block && freeEnt == FIRST - 1)
      && (!d.restart ==>
            && freeEnt == |d.words| && oldCode < |d.words| && Refers(p, oldCode)
            && d.words[oldCode] == d.prev && finChar == Head(d.prev))
    }

    /** Write out the word of `code`; the result is its first byte. */
    method Expand(code: nat, oldCode: nat, finChar: byte, ghost d: Decoded) returns (fin: byte)
      requires Allocated() && LastCodeOk(d, oldCode, finChar)
      requires Acceptable(p, d, code) && Refers(p, code)
      modifies deStack, `stdout
      ensures stdout == old(stdout) + WordOf(d, code) && fin == Head(WordOf(d, code))
    {
      var sp: nat;
      if code >= freeEnt {
        Push(0, finChar);
        sp, fin := Unwind(oldCode, 1, d.words);
      } else {
        sp, fin := Unwind(code, 0, d.words);
      }
      PopAll(sp);
    }

    /** Stack up the word of `code`, last byte first, on top of `height` bytes. */
    method Unwind(code: nat, height: nat, ghost words: seq<Word>) returns (sp: nat, fin: byte)
      requires Allocated() && Chains(p, words, tabPrefix[..], tabSuffix[..])
      requires code < |words| && Refers(p, code) && height + |words[code]| <= 65536
      requires forall c :: 0 <= c < 256 ==> words[c] == [c]
      requires forall c :: p.FirstFree() <= c < |words| ==> words[c] != []
      modifies deStack
      ensures sp <= deStack.Length && fin == Head(words[code])
      ensures Reversed(deStack[..sp]) == words[code] + Reversed(old(deStack[..height]))
    {
      ghost var below := Reversed(deStack[..height]);
      var c: nat := code;
      sp := height;
      while c >= 256
        invariant c < |words| && Refers(p, c)
        invariant sp + |words[c]| == height + |words[code]|
        invariant words[c] + Reversed(deStack[..sp]) == words[code] + below
        invariant Head(words[c]) == Head(words[code])
        decreases c
      {
        assert LinkOk(p, words, tabPrefix[..], tabSuffix[..], c);
        Push(sp, tabSuffix[c]);
        c := tabPrefix[c];
        sp := sp + 1;
      }
      fin := tabSuffix[c];
      Push(sp, fin);
      sp := sp + 1;
    }

    method Push(sp: nat, x: byte)
      requires sp < deStack.Length
      modifies deStack
      ensures Reversed(deStack[..sp + 1]) == [x] + Reversed(old(deStack[..sp]))
    {
      deStack[sp] := x;
      ReversedPush(deStack[..sp], x);
      assert deStack[..sp + 1] == deStack[..sp] + [x];
    }

    /** Put the stack out, last byte first. */
    method PopAll(height: nat)
      requires height <= deStack.Length
      modifies `stdout
      ensures stdout == old(stdout) + Reversed(deStack[..height])
    {
      var sp: nat := height;
      while sp > 0
        invariant sp <= height
        invariant stdout + Reversed(deStack[..sp]) == old(stdout) + Reversed(deStack[..height])
      {
        sp := sp - 1;
        assert deStack[..sp + 1][..sp] == deStack[..sp];
        stdout := stdout + [deStack[sp]];
      }
    }

    /**
     `k` codes are read, `d` is what they stand for, and the tables match it. Methods that merely
     pass this on compare it with `true`: it is then taken whole, not conjunct by conjunct.
     */
    ghost predicate LoopOk(stream: seq<byte>, items: seq<Item>, k: nat, d: Decoded, oldCode: nat, finChar: byte)
      reads this, buf, tabPrefix, tabSuffix
    {
      ReaderOk(stream, items, k) && stdout == d.text && LastCodeOk(d, oldCode, finChar)
    }

    /** Code `k` has been read too, and not yet acted upon. */
    ghost predicate ReadOk(stream: seq<byte>, items: seq<Item>, k: nat, d: Decoded, oldCode: nat, finChar: byte)
      reads this, buf, tabPrefix, tabSuffix
    {
      && Allocated() && Carries(p, stream, items) && k < |items|
      && AfterCodeAt(stream, Layout(p, items, k)) && !clearFlg
      && stdout == d.text && LastCodeOk(d, oldCode, finChar)
    }

    /** Fill in the first 256 entries. */
    method InitTables()
      requires Allocated()
      modifies tabPrefix, tabSuffix
      ensures Chains(p, InitialWords(p), tabPrefix[..], tabSuffix[..])
    {
      for code := 0 to 256
        invariant forall c :: 0 <= c < code ==> tabSuffix[c] == c
      {
        tabPrefix[code] := 0;
        tabSuffix[code] := code;
      }
    }

    method ReadNext(oldCode: nat, finChar: byte, ghost stream: seq<byte>, ghost items: seq<Item>, ghost k: nat, ghost d: Decoded)
      returns (code: int)
      requires LoopOk(stream, items, k, d, oldCode, finChar) == true
      modifies `stdin, `nBits, `maxCode, `offset, `size, `clearFlg, buf
      ensures code >= -1 && (code == -1 <==> k == |items|)
      ensures code == -1 ==> stdout == d.text
      ensures code >= 0 ==> code == items[k].code && ReadOk(stream, items, k, d, oldCode, finChar)
    {
      code := GetCode(stream, items, k);
    }

    /** CLEAR: forget the table. */
    method Clear(oldCode: nat, finChar: byte, ghost stream: seq<byte>, ghost items: seq<Item>, ghost k: nat, ghost d: Decoded)
      requires ReadOk(stream, items, k, d, oldCode, finChar) == true
      requires IsClear(p, d, CLEAR) && items[k] == ItemOf(p, d, CLEAR)
      modifies `clearFlg, `freeEnt, tabPrefix
      ensures LoopOk(stream, items, k + 1, Decode(p, d, CLEAR), oldCode, finChar)
    {
      for code := 0 to 256 {
        tabPrefix[code] := 0;
      }
      clearFlg := true;
      freeEnt := FIRST - 1;
      DecodeKeepsOk(p, d, CLEAR);
    }

    /** Write out the word of a code and learn the previous word with its first byte. */
    method TakeCode(code: nat, oldCode: nat, finChar: byte, ghost stream: seq<byte>, ghost items: seq<Item>, ghost k: nat, ghost d: Decoded)
      returns (finChar': byte)
      requires ReadOk(stream, items, k, d, oldCode, finChar) == true
      requires Acceptable(p, d, code) && !IsClear(p, d, code) && items[k] == ItemOf(p, d, code)
      modifies `stdout, `freeEnt, deStack, tabPrefix, tabSuffix
      ensures LoopOk(stream, items, k + 1, Decode(p, d, code), code, finChar')
    {
      DecodeKeepsOk(p, d, code);
      finChar' := Expand(code, oldCode, finChar, d);
      LearnNext(oldCode, finChar', d);
    }

    /** The table side of learning one entry. */
    method LearnNext(oldCode: nat, fin: byte, ghost d: Decoded)
      requires Allocated() && DecodedOk(p, d) && Chains(p, d.words, tabPrefix[..], tabSuffix[..])
      requires d.restart ==> p.block && freeEnt == FIRST - 1
      requires !d.restart ==> freeEnt == |d.words| && oldCode < |d.words| && Refers(p, oldCode) && d.words[oldCode] == d.prev
      modifies `freeEnt, tabPrefix, tabSuffix
      ensures Chains(p, Learn(p, d, fin), tabPrefix[..], tabSuffix[..])
      ensures freeEnt == |Learn(p, d, fin)|
    {
      Limits(p);
      if freeEnt < p.Limit() {
        if d.restart {
          UnusedEntry(p, d.words, tabPrefix[..], tabSuffix[..], oldCode, fin);
        } else {
          LearnKeepsChains(p, d.words, tabPrefix[..], tabSuffix[..], oldCode, fin);
        }
        tabPrefix[freeEnt] := oldCode;
        tabSuffix[freeEnt] := fin;
        freeEnt := freeEnt + 1;
      }
    }

    /** Decompress the whole input, which holds `codes`. */
    method Decompress(ghost codes: seq<nat>)
      requires ReaderOk(stdin, Items(p, codes), 0) && Valid(p, codes) && stdout == []
      modifies this, buf, tabPrefix, tabSuffix, deStack
      ensures stdout == Text(p, codes)
    {
      ghost var stream, items := stdin, Items(p, codes);
      InitTables();
      var code := GetCode(stream, items, 0);
      if code == -1 {
        return;
      }
      CodeStep(p, codes, 0);
      var oldCode: nat := code;
      var finChar: byte := oldCode;
      stdout := stdout + [finChar];
      ghost var k, d := 1, After(p, codes, 1);
      var more := true;
      while more
        invariant 1 <= k && Progress(stream, codes, k, d, more, oldCode, finChar) && (more ==> !d.restart)
        decreases |codes| - k, more
      {
        more, oldCode, finChar, k, d := DecodeNext(oldCode, finChar, stream, codes, k, d);
      }
    }

    /** Where the loop stands after `k` codes: ready for the next one, or done. */
    ghost predicate Progress(stream: seq<byte>, codes: seq<nat>, k: nat, d: Decoded, more: bool, oldCode: nat, finChar: byte)
      reads this, buf, tabPrefix, tabSuffix
    {
      && k <= |codes| && d == After(p, codes, k)
      && (more ==> LoopOk(stream, Items(p, codes), k, d, oldCode, finChar))
      && (!more ==> k == |codes| && stdout == d.text)
    }

    /** Read one code, after CLEAR two, and write out its word; `more` is false at the end. */
    method DecodeNext(oldCode: nat, finChar: byte, ghost stream: seq<byte>, ghost codes: seq<nat>, ghost k: nat, ghost d: Decoded)
      returns (more: bool, oldCode': nat, finChar': byte, ghost k': nat, ghost d': Decoded)
      requires Valid(p, codes) && Progress(stream, codes, k, d, true, oldCode, finChar) == true && !d.restart
      modifies this, buf, tabPrefix, tabSuffix, deStack
      ensures Progress(stream, codes, k', d', more, oldCode', finChar') == true
      ensures k <= k' && (more ==> k < k' && !d'.restart)
    {
      ghost var items := Items(p, codes);
      var code := ReadNext(oldCode, finChar, stream, items, k, d);
      if code == -1 {
        return false, oldCode, finChar, k, d;
      }
      CodeStep(p, codes, k);
      if code == CLEAR && p.block {
        Clear(oldCode, finChar, stream, items, k, d);
        more, oldCode', finChar', k', d' := AfterClear(oldCode, finChar, stream, codes, k + 1, Decode(p, d, CLEAR));
      } else {
        finChar' := TakeCode(code, oldCode, finChar, stream, items, k, d);
        return true, code, finChar', k + 1, Decode(p, d, code);
      }
    }

    /** The code that follows CLEAR, if the input does not end there. */
    method AfterClear(oldCode: nat, finChar: byte, ghost stream: seq<byte>, ghost codes: seq<nat>, ghost k: nat, ghost d: Decoded)
      returns (more: bool, oldCode': nat, finChar': byte, ghost k': nat, ghost d': Decoded)
      requires Valid(p, codes) && Progress(stream, codes, k, d, true, oldCode, finChar) == true && d.restart
      modifies this, buf, tabPrefix, tabSuffix, deStack
      ensures Progress(stream, codes, k', d', more, oldCode', finChar') == true
      ensures k <= k' && (more ==> !d'.restart)
    {
      ghost var items := Items(p, codes);
      var code := ReadNext(oldCode, finChar, stream, items, k, d);
      if code == -1 {
        return false, oldCode, finChar, k, d;
      }
      CodeStep(p, codes, k);
      finChar' := TakeCode(code, oldCode, finChar, stream, items, k, d);
      return true, code, finChar', k + 1, Decode(p, d, code);
    }
  }

  lemma Limits(p: Params)
    requires p.Supported()
    ensures 512 <= p.Limit() <= 65536
  {
    Widths();
    Pow2Monotone(INIT_BITS, p.maxBits);
    Pow2Monotone(p.maxBits, BITS);
  }
}
