/** The two programs as filters from standard input to standard output, and their composition. */
module Zcat {
  import opened Bits
  import opened LzwStream
  import opened LzwClear
  import opened LzwCodes
  import opened LzwReading
  import Compress
  import Decompress

  const BIT_MASK: byte := 0x1f

  datatype Outcome = Written(bytes: seq<byte>) | NotCompressed | TooManyBits(maxBits: nat)

  /** What the first three bytes of a stream say; a missing third byte reads as all ones. */
  datatype Preamble = Preamble(p: Params) | BadMagic

  function ReadPreamble(stream: seq<byte>): Preamble {
    if |stream| < 2 || stream[..2] != Compress.MAGIC then BadMagic
    else
      var third: byte := if |stream| == 2 then 0xff else stream[2];
      Preamble(Params(And(third, BIT_MASK), And(third, Compress.BLOCK_MASK) != 0))
  }

  /** A complete stream written with settings `p`, standing for `text` by way of `codes`. */
  ghost predicate IsStream(p: Params, stream: seq<byte>, codes: seq<nat>, text: seq<byte>) {
    && p.Supported()
    && |stream| >= 3 && stream[..3] == Compress.Header(p)
    && Encodes(p, stream[3..], codes, text)
  }

  /** Decompression finds the settings that compression wrote down. */
  lemma HeaderIsRead(p: Params, stream: seq<byte>)
    requires p.Supported() && |stream| >= 3 && stream[..3] == Compress.Header(p)
    ensures ReadPreamble(stream) == Preamble(p)
  {
    var b := p.maxBits;
    assert stream[..2] == Compress.Header(p)[..2] == Compress.MAGIC;
    assert stream[2] == Compress.Header(p)[2] == b + if p.block then 0x80 else 0;
    MaskedBits(b);
  }

  lemma MaskedBits(b: nat)
    requires b < 32
    ensures And(b, 0x1f) == b && And(b + 0x80, 0x1f) == b
    ensures And(b, 0x80) == 0 && And(b + 0x80, 0x80) == 0x80
  {
    Widths();
    assert Pow2(5) == 32 && Pow2(7) == 128;
    MaskLow(b, 0, 5);
    MaskLow(b, 4, 5);
    SingleBit(b, 0, 7);
    SingleBit(b, 1, 7);
  }

  /** A mask of `k` ones takes out the low `k` bits. */
  lemma {:induction false} MaskLow(b: nat, high: nat, k: nat)
    requires b < Pow2(k)
    ensures And(b + high * Pow2(k), Pow2(k) - 1) == b
  {
    if k > 0 {
      var x, m := b + high * Pow2(k), Pow2(k) - 1;
      assert x == b + 2 * (high * Pow2(k - 1));
      assert x % 2 == b % 2 && x / 2 == b / 2 + high * Pow2(k - 1);
      assert m % 2 == 1 && m / 2 == Pow2(k - 1) - 1;
      MaskLow(b / 2, high, k - 1);
    }
  }

  /** A mask of one bit tests that bit. */
  lemma {:induction false} SingleBit(b: nat, high: nat, k: nat)
    requires b < Pow2(k) && high < 2
    ensures And(b + high * Pow2(k), Pow2(k)) == high * Pow2(k)
  {
    if k > 0 {
      var x := b + high * Pow2(k);
      assert x == b + 2 * (high * Pow2(k - 1));
      assert x % 2 == b % 2 && x / 2 == b / 2 + high * Pow2(k - 1);
      SingleBit(b / 2, high, k - 1);
    } else {
      assert And(high, 1) == high;
    }
  }

  /** A stream stands for one text only, whatever settings and codes it is read with. */
  lemma StreamDeterminesText(p: Params, q: Params, stream: seq<byte>, a: seq<nat>, b: seq<nat>, s: seq<byte>, t: seq<byte>)
    requires IsStream(p, stream, a, s) && IsStream(q, stream, b, t)
    ensures p == q && a == b && s == t
  {
    HeaderIsRead(p, stream);
    HeaderIsRead(q, stream);
    WrittenIsRead(p, stream[3..], a, s);
    WrittenIsRead(p, stream[3..], b, t);
  }

  /** `compress -b bits`, with or without block mode, between standard input and output. */
  method CompressInput(bits: int, block: bool, policy: Policy, input: seq<byte>)
    returns (output: seq<byte>, expanded: bool, ghost p: Params, ghost codes: seq<nat>)
    ensures p.block == block && p.maxBits == (if bits < INIT_BITS then INIT_BITS else if bits > BITS then BITS else bits)
    ensures IsStream(p, output, codes, input) && Follows(p, policy, codes, input)
    ensures expanded == (|output| > (if |input| == 0 then 1 else |input|))
  {
    var maxBits: int := bits;
    if maxBits < INIT_BITS {
      maxBits := INIT_BITS;
    }
    if maxBits > BITS {
      maxBits := BITS;
    }
    p := Params(maxBits, block);
    var c := new Compress.Compressor(Params(maxBits, block), policy);
    expanded, codes := c.Compress(input);
    output := c.stdout;
  }

  /** What follows the header. */
  function Body(stream: seq<byte>): seq<byte> {
    if |stream| < 3 then [] else stream[3..]
  }

  /** What the codes that follow the header come to, where they are read at all. */
  ghost function ReadStream(stream: seq<byte>): Reading
    requires ReadPreamble(stream).Preamble? && ReadPreamble(stream).p.Supported()
  {
    Read(ReadPreamble(stream).p, Body(stream))
  }

  /**
   `compress -d` between standard input and output, on any stream whose codes the dictionary admits,
   whoever wrote it. The program does not look whether they are.
   */
  method DecompressInput(stream: seq<byte>) returns (r: Outcome)
    requires ReadPreamble(stream).Preamble? && ReadPreamble(stream).p.maxBits <= BITS
      ==> ReadPreamble(stream).p.Supported() && ReadStream(stream).Finished?
    ensures match ReadPreamble(stream)
      case BadMagic => r == NotCompressed
      case Preamble(p) =>
        r == if p.maxBits > BITS then TooManyBits(p.maxBits) else Written(Text(p, ReadStream(stream).codes))
  {
    match ReadPreamble(stream) {
      case BadMagic =>
        r := NotCompressed;
      case Preamble(p) =>
        if p.maxBits > BITS {
          r := TooManyBits(p.maxBits);
        } else {
          var d := new Decompress.Decompressor(p, Body(stream));
          d.Decompress(ReadStream(stream).codes);
          r := Written(d.stdout);
        }
    }
  }

  /**
   Decompressing what was compressed gives back the input, every byte of it, whether full tables are
   cleared by the program's rule or at any other moments.
   */
  method RoundTrip(bits: int, block: bool, policy: Policy, input: seq<byte>) returns (r: Outcome)
    ensures r == Written(input)
  {
    var stream, expanded;
    ghost var p, codes;
    stream, expanded, p, codes := CompressInput(bits, block, policy, input);
    HeaderIsRead(p, stream);
    WrittenIsRead(p, stream[3..], codes, input);
    r := DecompressInput(stream);
  }
}
