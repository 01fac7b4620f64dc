/**
 * The bit-level facts behind the hand-unrolled packing of `encode` (lib/lexicoid.rb): each
 * 5-bit group it assembles out of a chunk of up to five bytes with shifts, masks and ORs is
 * the RFC 4648 field at that position of the chunk's bit string.
 */
module Packing {
  import opened BigEndian
  import opened Bits
  import opened Base32

  /** Bit `k` of byte `n` sits at position 8n + k of the bit string. */
  lemma {:induction false} BitStringAt(bytes: seq<Byte>, n: nat, k: nat)
    requires n < |bytes| && k < 8
    ensures BitString(bytes)[8 * n + k] == BitOf(bytes[n] as bv8, 7 - k)
    decreases |bytes|
  {
    var init, last := bytes[..|bytes| - 1], bytes[|bytes| - 1];
    assert BitString(bytes) == BitString(init) + ByteBits(last);
    if n < |init| {
      assert 8 * n + k < 8 * |init|;
      BitStringAt(init, n, k);
      assert init[n] == bytes[n];
    } else {
      assert 8 * n + k == 8 * |init| + k;
    }
  }

  /** Bit `i` of a bit string, reading zero past its end. */
  function PadAt(bits: seq<Bit>, i: nat): Bit
  {
    if i < |bits| then bits[i] else 0
  }

  /** Bit `i` of the bit string of `bytes`, reading zero past its end (the padding). */
  function BitAt(bytes: seq<Byte>, i: nat): Bit
  {
    PadAt(BitString(bytes), i)
  }

  /** The value of five bits, most significant first. */
  function Weigh(b4: Bit, b3: Bit, b2: Bit, b1: Bit, b0: Bit): Group
  {
    16 * (b4 as int) + 8 * (b3 as int) + 4 * (b2 as int) + 2 * (b1 as int) + (b0 as int)
  }

  lemma Value5(s: seq<Bit>)
    requires |s| == 5
    ensures Value(s) == Weigh(s[0], s[1], s[2], s[3], s[4])
  {
    assert s[..1][..0] == [];
    assert Value(s[..1]) == s[0];
    assert s[..2][..1] == s[..1];
    assert Value(s[..2]) == 2 * s[0] as int + s[1] as int;
    assert s[..3][..2] == s[..2];
    assert Value(s[..3]) == 4 * s[0] as int + 2 * s[1] as int + s[2] as int;
    assert s[..4][..3] == s[..3];
    assert Value(s[..4]) == 8 * s[0] as int + 4 * s[1] as int + 2 * s[2] as int + s[3] as int;
    assert s[..4] == s[..|s| - 1];
  }

  /** The field of a short bit string is its bits followed by zeros. */
  lemma ShortField(bits: seq<Bit>)
    requires 0 < |bits| < 5
    ensures Fields(bits)[0]
      == Weigh(PadAt(bits, 0), PadAt(bits, 1), PadAt(bits, 2), PadAt(bits, 3), PadAt(bits, 4))
  {
    var p := bits + Zeros(5 - |bits|);
    assert Fields(bits) == [Value(p)];
    Value5(p);
    assert PadAt(bits, 0) == p[0] && PadAt(bits, 1) == p[1] && PadAt(bits, 2) == p[2];
    assert PadAt(bits, 3) == p[3] && PadAt(bits, 4) == p[4];
  }

  lemma FirstField(bits: seq<Bit>)
    requires 5 <= |bits|
    ensures Fields(bits)[0]
      == Weigh(PadAt(bits, 0), PadAt(bits, 1), PadAt(bits, 2), PadAt(bits, 3), PadAt(bits, 4))
  {
    var p := bits[..5];
    assert Fields(bits)[0] == Value(p);
    Value5(p);
  }

  /** Past the first field, the fields are those of the bits after the first five. */
  lemma LaterField(bits: seq<Bit>, j: nat)
    requires 5 <= |bits| && 0 < j < (|bits| + 4) / 5
    ensures j - 1 < (|bits| - 5 + 4) / 5
    ensures Fields(bits)[j] == Fields(bits[5..])[j - 1]
  {
    assert Fields(bits) == [Value(bits[..5])] + Fields(bits[5..]);
  }

  lemma PadAtShift(bits: seq<Bit>, i: nat)
    requires 5 <= |bits|
    ensures PadAt(bits, i + 5) == PadAt(bits[5..], i)
  {
  }

  /** Field `j` of the grouping, as the five bits it is made of. */
  lemma {:induction false} FieldAt(bits: seq<Bit>, j: nat)
    requires j < (|bits| + 4) / 5
    ensures Fields(bits)[j]
      == Weigh(PadAt(bits, 5 * j), PadAt(bits, 5 * j + 1), PadAt(bits, 5 * j + 2),
               PadAt(bits, 5 * j + 3), PadAt(bits, 5 * j + 4))
    decreases |bits|
  {
    if |bits| < 5 {
      assert j == 0;
      ShortField(bits);
    } else if j == 0 {
      FirstField(bits);
    } else {
      var rest := bits[5..];
      LaterField(bits, j);
      FieldAt(rest, j - 1);
      var i := 5 * (j - 1);
      assert 5 * j == i + 5;
      PadAtShift(bits, i);
      PadAtShift(bits, i + 1);
      PadAtShift(bits, i + 2);
      PadAtShift(bits, i + 3);
      PadAtShift(bits, i + 4);
    }
  }

  /** Field `j` of the grouping of a byte sequence, read off its bits. */
  lemma FieldBits(bytes: seq<Byte>, j: nat)
    requires j < (8 * |bytes| + 4) / 5
    ensures Fields(BitString(bytes))[j]
      == Weigh(BitAt(bytes, 5 * j), BitAt(bytes, 5 * j + 1), BitAt(bytes, 5 * j + 2),
               BitAt(bytes, 5 * j + 3), BitAt(bytes, 5 * j + 4))
  {
    FieldAt(BitString(bytes), j);
  }

  /** A group value below 32 is the weight of its five low bits. */
  lemma GroupBits(g: bv8)
    requires g < 32
    ensures g as int == Weigh(BitOf(g, 4), BitOf(g, 3), BitOf(g, 2), BitOf(g, 1), BitOf(g, 0))
  {
    LowBits(g);
    var a: int, b: int, c: int, d: int, e: int := BitOf(g, 4), BitOf(g, 3), BitOf(g, 2), BitOf(g, 1), BitOf(g, 0);
    assert a == (if g & 16 != 0 then 1 else 0);
    assert b == (if g & 8 != 0 then 1 else 0);
    assert c == (if g & 4 != 0 then 1 else 0);
    assert d == (if g & 2 != 0 then 1 else 0);
    assert e == (if g & 1 != 0 then 1 else 0);
    assert Weigh(a, b, c, d, e) == 16 * a + 8 * b + 4 * c + 2 * d + e;
  }

  lemma LowBits(g: bv8)
    requires g < 32
    ensures g as int == (if g & 16 != 0 then 16 else 0) + (if g & 8 != 0 then 8 else 0)
      + (if g & 4 != 0 then 4 else 0) + (if g & 2 != 0 then 2 else 0) + (if g & 1 != 0 then 1 else 0)
  {
  }

  /** `g` is a 5-bit value whose bits, most significant first, are b4 .. b0. */
  predicate Reads(g: bv8, b4: Bit, b3: Bit, b2: Bit, b1: Bit, b0: Bit)
  {
    g < 32 && BitOf(g, 4) == b4 && BitOf(g, 3) == b3 && BitOf(g, 2) == b2 && BitOf(g, 1) == b1 && BitOf(g, 0) == b0
  }

  lemma ReadsValue(g: bv8, b4: Bit, b3: Bit, b2: Bit, b1: Bit, b0: Bit)
    requires Reads(g, b4, b3, b2, b1, b0)
    ensures g as int == Weigh(b4, b3, b2, b1, b0)
  {
    GroupBits(g);
  }

  /*
   * Group j of the unrolled packing (line by line as `encode` computes it, a missing byte
   * reading as 0) holds bits 5j .. 5j+4 of the 40-bit chunk x0 x1 x2 x3 x4.
   */

  lemma Group0Bits(x0: bv8)
    ensures Reads(x0 >> 3, BitOf(x0, 7), BitOf(x0, 6), BitOf(x0, 5), BitOf(x0, 4), BitOf(x0, 3))
  {
  }

  lemma Group1Bits(x0: bv8, x1: bv8)
    ensures Reads(((x1 >> 6) & 0x1F) | ((x0 << 2) & 0x1F), BitOf(x0, 2), BitOf(x0, 1), BitOf(x0, 0), BitOf(x1, 7), BitOf(x1, 6))
  {
  }

  lemma Group2Bits(x1: bv8)
    ensures Reads((x1 >> 1) & 0x1F, BitOf(x1, 5), BitOf(x1, 4), BitOf(x1, 3), BitOf(x1, 2), BitOf(x1, 1))
  {
  }

  lemma Group3Bits(x1: bv8, x2: bv8)
    ensures Reads(((x2 >> 4) & 0x1F) | ((x1 << 4) & 0x1F), BitOf(x1, 0), BitOf(x2, 7), BitOf(x2, 6), BitOf(x2, 5), BitOf(x2, 4))
  {
  }

  lemma Group4Bits(x2: bv8, x3: bv8)
    ensures Reads((x3 >> 7) | ((x2 << 1) & 0x1F), BitOf(x2, 3), BitOf(x2, 2), BitOf(x2, 1), BitOf(x2, 0), BitOf(x3, 7))
  {
  }

  lemma Group5Bits(x3: bv8)
    ensures Reads((x3 >> 2) & 0x1F, BitOf(x3, 6), BitOf(x3, 5), BitOf(x3, 4), BitOf(x3, 3), BitOf(x3, 2))
  {
  }

  lemma Group6Bits(x3: bv8, x4: bv8)
    ensures Reads((x4 >> 5) | ((x3 << 3) & 0x1F), BitOf(x3, 1), BitOf(x3, 0), BitOf(x4, 7), BitOf(x4, 6), BitOf(x4, 5))
  {
  }

  lemma Group7Bits(x4: bv8)
    ensures Reads(x4 & 0x1F, BitOf(x4, 4), BitOf(x4, 3), BitOf(x4, 2), BitOf(x4, 1), BitOf(x4, 0))
  {
  }

  /** Byte `k` of a chunk as an 8-bit value, 0 past its end. */
  function X(chunk: seq<Byte>, k: nat): bv8
  {
    if k < |chunk| then chunk[k] as bv8 else 0
  }

  /** Bit `k` of byte `n` of a chunk, a missing byte reading as zero bits. */
  lemma BitAtChunk(chunk: seq<Byte>, n: nat, k: nat)
    requires |chunk| <= 5 && n < 5 && k < 8
    ensures BitAt(chunk, 8 * n + k) == BitOf(X(chunk, n), 7 - k)
  {
    if n < |chunk| {
      BitStringAt(chunk, n, k);
    }
  }

  lemma Group0Reads(chunk: seq<Byte>, g: bv8)
    requires |chunk| <= 5
    requires g == X(chunk, 0) >> 3
    ensures Reads(g, BitAt(chunk, 0), BitAt(chunk, 1), BitAt(chunk, 2), BitAt(chunk, 3), BitAt(chunk, 4))
  {
    var x0 := X(chunk, 0);
    assert BitAt(chunk, 0) == BitOf(x0, 7) by { BitAtChunk(chunk, 0, 0); }
    assert BitAt(chunk, 1) == BitOf(x0, 6) by { BitAtChunk(chunk, 0, 1); }
    assert BitAt(chunk, 2) == BitOf(x0, 5) by { BitAtChunk(chunk, 0, 2); }
    assert BitAt(chunk, 3) == BitOf(x0, 4) by { BitAtChunk(chunk, 0, 3); }
    assert BitAt(chunk, 4) == BitOf(x0, 3) by { BitAtChunk(chunk, 0, 4); }
    Group0Bits(x0);
  }

  lemma Group1Reads(chunk: seq<Byte>, g: bv8)
    requires |chunk| <= 5
    requires g == ((X(chunk, 1) >> 6) & 0x1F) | ((X(chunk, 0) << 2) & 0x1F)
    ensures Reads(g, BitAt(chunk, 5), BitAt(chunk, 6), BitAt(chunk, 7), BitAt(chunk, 8), BitAt(chunk, 9))
  {
    var x0 := X(chunk, 0);
    var x1 := X(chunk, 1);
    assert BitAt(chunk, 5) == BitOf(x0, 2) by { BitAtChunk(chunk, 0, 5); }
    assert BitAt(chunk, 6) == BitOf(x0, 1) by { BitAtChunk(chunk, 0, 6); }
    assert BitAt(chunk, 7) == BitOf(x0, 0) by { BitAtChunk(chunk, 0, 7); }
    assert BitAt(chunk, 8) == BitOf(x1, 7) by { BitAtChunk(chunk, 1, 0); }
    assert BitAt(chunk, 9) == BitOf(x1, 6) by { BitAtChunk(chunk, 1, 1); }
    Group1Bits(x0, x1);
  }

  lemma Group2Reads(chunk: seq<Byte>, g: bv8)
    requires |chunk| <= 5
    requires g == (X(chunk, 1) >> 1) & 0x1F
    ensures Reads(g, BitAt(chunk, 10), BitAt(chunk, 11), BitAt(chunk, 12), BitAt(chunk, 13), BitAt(chunk, 14))
  {
    var x1 := X(chunk, 1);
    assert BitAt(chunk, 10) == BitOf(x1, 5) by { BitAtChunk(chunk, 1, 2); }
    assert BitAt(chunk, 11) == BitOf(x1, 4) by { BitAtChunk(chunk, 1, 3); }
    assert BitAt(chunk, 12) == BitOf(x1, 3) by { BitAtChunk(chunk, 1, 4); }
    assert BitAt(chunk, 13) == BitOf(x1, 2) by { BitAtChunk(chunk, 1, 5); }
    assert BitAt(chunk, 14) == BitOf(x1, 1) by { BitAtChunk(chunk, 1, 6); }
    Group2Bits(x1);
  }

  lemma Group3Reads(chunk: seq<Byte>, g: bv8)
    requires |chunk| <= 5
    requires g == ((X(chunk, 2) >> 4) & 0x1F) | ((X(chunk, 1) << 4) & 0x1F)
    ensures Reads(g, BitAt(chunk, 15), BitAt(chunk, 16), BitAt(chunk, 17), BitAt(chunk, 18), BitAt(chunk, 19))
  {
    var x1 := X(chunk, 1);
    var x2 := X(chunk, 2);
    assert BitAt(chunk, 15) == BitOf(x1, 0) by { BitAtChunk(chunk, 1, 7); }
    assert BitAt(chunk, 16) == BitOf(x2, 7) by { BitAtChunk(chunk, 2, 0); }
    assert BitAt(chunk, 17) == BitOf(x2, 6) by { BitAtChunk(chunk, 2, 1); }
    assert BitAt(chunk, 18) == BitOf(x2, 5) by { BitAtChunk(chunk, 2, 2); }
    assert BitAt(chunk, 19) == BitOf(x2, 4) by { BitAtChunk(chunk, 2, 3); }
    Group3Bits(x1, x2);
  }

  lemma Group4Reads(chunk: seq<Byte>, g: bv8)
    requires |chunk| <= 5
    requires g == (X(chunk, 3) >> 7) | ((X(chunk, 2) << 1) & 0x1F)
    ensures Reads(g, BitAt(chunk, 20), BitAt(chunk, 21), BitAt(chunk, 22), BitAt(chunk, 23), BitAt(chunk, 24))
  {
    var x2 := X(chunk, 2);
    var x3 := X(chunk, 3);
    assert BitAt(chunk, 20) == BitOf(x2, 3) by { BitAtChunk(chunk, 2, 4); }
    assert BitAt(chunk, 21) == BitOf(x2, 2) by { BitAtChunk(chunk, 2, 5); }
    assert BitAt(chunk, 22) == BitOf(x2, 1) by { BitAtChunk(chunk, 2, 6); }
    assert BitAt(chunk, 23) == BitOf(x2, 0) by { BitAtChunk(chunk, 2, 7); }
    assert BitAt(chunk, 24) == BitOf(x3, 7) by { BitAtChunk(chunk, 3, 0); }
    Group4Bits(x2, x3);
  }

  lemma Group5Reads(chunk: seq<Byte>, g: bv8)
    requires |chunk| <= 5
    requires g == (X(chunk, 3) >> 2) & 0x1F
    ensures Reads(g, BitAt(chunk, 25), BitAt(chunk, 26), BitAt(chunk, 27), BitAt(chunk, 28), BitAt(chunk, 29))
  {
    var x3 := X(chunk, 3);
    assert BitAt(chunk, 25) == BitOf(x3, 6) by { BitAtChunk(chunk, 3, 1); }
    assert BitAt(chunk, 26) == BitOf(x3, 5) by { BitAtChunk(chunk, 3, 2); }
    assert BitAt(chunk, 27) == BitOf(x3, 4) by { BitAtChunk(chunk, 3, 3); }
    assert BitAt(chunk, 28) == BitOf(x3, 3) by { BitAtChunk(chunk, 3, 4); }
    assert BitAt(chunk, 29) == BitOf(x3, 2) by { BitAtChunk(chunk, 3, 5); }
    Group5Bits(x3);
  }

  lemma Group6Reads(chunk: seq<Byte>, g: bv8)
    requires |chunk| <= 5
    requires g == (X(chunk, 4) >> 5) | ((X(chunk, 3) << 3) & 0x1F)
    ensures Reads(g, BitAt(chunk, 30), BitAt(chunk, 31), BitAt(chunk, 32), BitAt(chunk, 33), BitAt(chunk, 34))
  {
    var x3 := X(chunk, 3);
    var x4 := X(chunk, 4);
    assert BitAt(chunk, 30) == BitOf(x3, 1) by { BitAtChunk(chunk, 3, 6); }
    assert BitAt(chunk, 31) == BitOf(x3, 0) by { BitAtChunk(chunk, 3, 7); }
    assert BitAt(chunk, 32) == BitOf(x4, 7) by { BitAtChunk(chunk, 4, 0); }
    assert BitAt(chunk, 33) == BitOf(x4, 6) by { BitAtChunk(chunk, 4, 1); }
    assert BitAt(chunk, 34) == BitOf(x4, 5) by { BitAtChunk(chunk, 4, 2); }
    Group6Bits(x3, x4);
  }

  lemma Group7Reads(chunk: seq<Byte>, g: bv8)
    requires |chunk| <= 5
    requires g == X(chunk, 4) & 0x1F
    ensures Reads(g, BitAt(chunk, 35), BitAt(chunk, 36), BitAt(chunk, 37), BitAt(chunk, 38), BitAt(chunk, 39))
  {
    var x4 := X(chunk, 4);
    assert BitAt(chunk, 35) == BitOf(x4, 4) by { BitAtChunk(chunk, 4, 3); }
    assert BitAt(chunk, 36) == BitOf(x4, 3) by { BitAtChunk(chunk, 4, 4); }
    assert BitAt(chunk, 37) == BitOf(x4, 2) by { BitAtChunk(chunk, 4, 5); }
    assert BitAt(chunk, 38) == BitOf(x4, 1) by { BitAtChunk(chunk, 4, 6); }
    assert BitAt(chunk, 39) == BitOf(x4, 0) by { BitAtChunk(chunk, 4, 7); }
    Group7Bits(x4);
  }
  /** The first five bytes of `bytes`, or all of them if there are fewer: the chunk `encode` packs next. */
  function ChunkOf(bytes: seq<Byte>): (chunk: seq<Byte>)
    ensures |chunk| == if |bytes| < 5 then |bytes| else 5
  {
    if |bytes| < 5 then bytes else bytes[..5]
  }

  lemma Group0Field(chunk: seq<Byte>, g: bv8)
    requires 1 <= |chunk| <= 5 && 0 < |Fields(BitString(chunk))|
    requires g == X(chunk, 0) >> 3
    ensures g < 32 && g as int == Fields(BitString(chunk))[0]
  {
    assert g < 32 && g as int == Weigh(BitAt(chunk, 0), BitAt(chunk, 1), BitAt(chunk, 2), BitAt(chunk, 3), BitAt(chunk, 4)) by {
      Group0Reads(chunk, g);
      ReadsValue(g, BitAt(chunk, 0), BitAt(chunk, 1), BitAt(chunk, 2), BitAt(chunk, 3), BitAt(chunk, 4));
    }
    FieldBits(chunk, 0);
  }

  lemma Group1Field(chunk: seq<Byte>, g: bv8)
    requires 1 <= |chunk| <= 5 && 1 < |Fields(BitString(chunk))|
    requires g == ((X(chunk, 1) >> 6) & 0x1F) | ((X(chunk, 0) << 2) & 0x1F)
    ensures g < 32 && g as int == Fields(BitString(chunk))[1]
  {
    assert g < 32 && g as int == Weigh(BitAt(chunk, 5), BitAt(chunk, 6), BitAt(chunk, 7), BitAt(chunk, 8), BitAt(chunk, 9)) by {
      Group1Reads(chunk, g);
      ReadsValue(g, BitAt(chunk, 5), BitAt(chunk, 6), BitAt(chunk, 7), BitAt(chunk, 8), BitAt(chunk, 9));
    }
    FieldBits(chunk, 1);
  }

  lemma Group2Field(chunk: seq<Byte>, g: bv8)
    requires 1 <= |chunk| <= 5 && 2 < |Fields(BitString(chunk))|
    requires g == (X(chunk, 1) >> 1) & 0x1F
    ensures g < 32 && g as int == Fields(BitString(chunk))[2]
  {
    assert g < 32 && g as int == Weigh(BitAt(chunk, 10), BitAt(chunk, 11), BitAt(chunk, 12), BitAt(chunk, 13), BitAt(chunk, 14)) by {
      Group2Reads(chunk, g);
      ReadsValue(g, BitAt(chunk, 10), BitAt(chunk, 11), BitAt(chunk, 12), BitAt(chunk, 13), BitAt(chunk, 14));
    }
    FieldBits(chunk, 2);
  }

  lemma Group3Field(chunk: seq<Byte>, g: bv8)
    requires 1 <= |chunk| <= 5 && 3 < |Fields(BitString(chunk))|
    requires g == ((X(chunk, 2) >> 4) & 0x1F) | ((X(chunk, 1) << 4) & 0x1F)
    ensures g < 32 && g as int == Fields(BitString(chunk))[3]
  {
    assert g < 32 && g as int == Weigh(BitAt(chunk, 15), BitAt(chunk, 16), BitAt(chunk, 17), BitAt(chunk, 18), BitAt(chunk, 19)) by {
      Group3Reads(chunk, g);
      ReadsValue(g, BitAt(chunk, 15), BitAt(chunk, 16), BitAt(chunk, 17), BitAt(chunk, 18), BitAt(chunk, 19));
    }
    FieldBits(chunk, 3);
  }

  lemma Group4Field(chunk: seq<Byte>, g: bv8)
    requires 1 <= |chunk| <= 5 && 4 < |Fields(BitString(chunk))|
    requires g == (X(chunk, 3) >> 7) | ((X(chunk, 2) << 1) & 0x1F)
    ensures g < 32 && g as int == Fields(BitString(chunk))[4]
  {
    assert g < 32 && g as int == Weigh(BitAt(chunk, 20), BitAt(chunk, 21), BitAt(chunk, 22), BitAt(chunk, 23), BitAt(chunk, 24)) by {
      Group4Reads(chunk, g);
      ReadsValue(g, BitAt(chunk, 20), BitAt(chunk, 21), BitAt(chunk, 22), BitAt(chunk, 23), BitAt(chunk, 24));
    }
    FieldBits(chunk, 4);
  }

  lemma Group5Field(chunk: seq<Byte>, g: bv8)
    requires 1 <= |chunk| <= 5 && 5 < |Fields(BitString(chunk))|
    requires g == (X(chunk, 3) >> 2) & 0x1F
    ensures g < 32 && g as int == Fields(BitString(chunk))[5]
  {
    assert g < 32 && g as int == Weigh(BitAt(chunk, 25), BitAt(chunk, 26), BitAt(chunk, 27), BitAt(chunk, 28), BitAt(chunk, 29)) by {
      Group5Reads(chunk, g);
      ReadsValue(g, BitAt(chunk, 25), BitAt(chunk, 26), BitAt(chunk, 27), BitAt(chunk, 28), BitAt(chunk, 29));
    }
    FieldBits(chunk, 5);
  }

  lemma Group6Field(chunk: seq<Byte>, g: bv8)
    requires 1 <= |chunk| <= 5 && 6 < |Fields(BitString(chunk))|
    requires g == (X(chunk, 4) >> 5) | ((X(chunk, 3) << 3) & 0x1F)
    ensures g < 32 && g as int == Fields(BitString(chunk))[6]
  {
    assert g < 32 && g as int == Weigh(BitAt(chunk, 30), BitAt(chunk, 31), BitAt(chunk, 32), BitAt(chunk, 33), BitAt(chunk, 34)) by {
      Group6Reads(chunk, g);
      ReadsValue(g, BitAt(chunk, 30), BitAt(chunk, 31), BitAt(chunk, 32), BitAt(chunk, 33), BitAt(chunk, 34));
    }
    FieldBits(chunk, 6);
  }

  lemma Group7Field(chunk: seq<Byte>, g: bv8)
    requires 1 <= |chunk| <= 5 && 7 < |Fields(BitString(chunk))|
    requires g == X(chunk, 4) & 0x1F
    ensures g < 32 && g as int == Fields(BitString(chunk))[7]
  {
    assert g < 32 && g as int == Weigh(BitAt(chunk, 35), BitAt(chunk, 36), BitAt(chunk, 37), BitAt(chunk, 38), BitAt(chunk, 39)) by {
      Group7Reads(chunk, g);
      ReadsValue(g, BitAt(chunk, 35), BitAt(chunk, 36), BitAt(chunk, 37), BitAt(chunk, 38), BitAt(chunk, 39));
    }
    FieldBits(chunk, 7);
  }

  /** Group `j` of the unrolled packing of the five bytes x0 .. x4. */
  function Pack(x0: bv8, x1: bv8, x2: bv8, x3: bv8, x4: bv8, j: nat): bv8
  {
    if j == 0 then x0 >> 3
    else if j == 1 then ((x1 >> 6) & 0x1F) | ((x0 << 2) & 0x1F)
    else if j == 2 then (x1 >> 1) & 0x1F
    else if j == 3 then ((x2 >> 4) & 0x1F) | ((x1 << 4) & 0x1F)
    else if j == 4 then (x3 >> 7) | ((x2 << 1) & 0x1F)
    else if j == 5 then (x3 >> 2) & 0x1F
    else if j == 6 then (x4 >> 5) | ((x3 << 3) & 0x1F)
    else x4 & 0x1F
  }

  /** Group `j` as `encode` packs it out of the first five bytes, a missing byte reading as 0. */
  function PackedGroup(bytes: seq<Byte>, j: nat): bv8
  {
    Pack(X(bytes, 0), X(bytes, 1), X(bytes, 2), X(bytes, 3), X(bytes, 4), j)
  }

  /** Packed group `j` of a chunk of one to five bytes is field `j` of RFC 4648. */
  lemma PackedField(chunk: seq<Byte>, j: nat)
    requires 1 <= |chunk| <= 5
    requires j < |Fields(BitString(chunk))|
    ensures PackedGroup(chunk, j) < 32 && PackedGroup(chunk, j) as int == Fields(BitString(chunk))[j]
  {
    if j == 0 {
      Group0Field(chunk, PackedGroup(chunk, 0));
    } else if j == 1 {
      Group1Field(chunk, PackedGroup(chunk, 1));
    } else if j == 2 {
      Group2Field(chunk, PackedGroup(chunk, 2));
    } else if j == 3 {
      Group3Field(chunk, PackedGroup(chunk, 3));
    } else if j == 4 {
      Group4Field(chunk, PackedGroup(chunk, 4));
    } else if j == 5 {
      Group5Field(chunk, PackedGroup(chunk, 5));
    } else if j == 6 {
      Group6Field(chunk, PackedGroup(chunk, 6));
    } else {
      Group7Field(chunk, PackedGroup(chunk, 7));
    }
  }

  /** Only the first five bytes take part in the packing. */
  lemma PackedGroupChunk(bytes: seq<Byte>, j: nat)
    ensures PackedGroup(ChunkOf(bytes), j) == PackedGroup(bytes, j)
  {
    var chunk := ChunkOf(bytes);
    assert X(chunk, 0) == X(bytes, 0) && X(chunk, 1) == X(bytes, 1) && X(chunk, 2) == X(bytes, 2);
    assert X(chunk, 3) == X(bytes, 3) && X(chunk, 4) == X(bytes, 4);
  }

  /** The number of groups `encode` packs out of the next `n` bytes. */
  function GroupCount(n: nat): nat
  {
    if n <= 2 then 2 * n else if n <= 4 then 2 * n - 1 else 8
  }

  /** The groups `encode` packs out of the next chunk of `bytes`. */
  function PackedGroups(bytes: seq<Byte>): (groups: seq<bv8>)
    ensures |groups| == GroupCount(|bytes|)
  {
    seq(GroupCount(|bytes|), j requires 0 <= j => PackedGroup(bytes, j))
  }

  /**
   * The unrolled packing is RFC 4648 grouping: a chunk of one to five bytes gives as many
   * groups as its bit string has fields, and each packed group is that field.
   */
  lemma PackedFields(bytes: seq<Byte>)
    requires |bytes| > 0
    ensures GroupCount(|bytes|) == |Fields(BitString(ChunkOf(bytes)))|
    ensures forall j :: 0 <= j < GroupCount(|bytes|) ==>
      PackedGroup(bytes, j) < 32 && PackedGroup(bytes, j) as int == Fields(BitString(ChunkOf(bytes)))[j]
  {
    var chunk := ChunkOf(bytes);
    forall j | 0 <= j < GroupCount(|bytes|)
      ensures PackedGroup(bytes, j) < 32 && PackedGroup(bytes, j) as int == Fields(BitString(chunk))[j]
    {
      PackedGroupChunk(bytes, j);
      PackedField(chunk, j);
    }
  }
}
