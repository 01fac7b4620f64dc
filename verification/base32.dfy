/**
 * The lexicographic Base32 encoder (`Lexicoid.encode`, lib/lexicoid.rb): the bit grouping
 * of section 6 of RFC 4648 over the alphabet `234567abcdefghijklmnopqrstuvwxyz`, without
 * `=` padding.
 */
module Base32 {
  import opened BigEndian
  import opened Bits

  /** `LEXICOGRAPHIC_BASE32`: the digits 2-7, then the 26 letters, in code-point order. */
  const Alphabet: string := "234567abcdefghijklmnopqrstuvwxyz"

  /** The value of one 5-bit field: an index into the alphabet. */
  type Group = g: int | 0 <= g < 32

  /** The 8-bit value whose only set bit is bit `i`, that is 1 << i. */
  function Mask(i: nat): bv8
    requires i < 8
  {
    if i == 0 then 1 else if i == 1 then 2 else if i == 2 then 4 else if i == 3 then 8
    else if i == 4 then 16 else if i == 5 then 32 else if i == 6 then 64 else 128
  }

  /** Bit `i` (0 is the least significant) of an 8-bit value. */
  function BitOf(x: bv8, i: nat): Bit
    requires i < 8
  {
    if x & Mask(i) == 0 then 0 else 1
  }

  /** The eight bits of a byte, most significant first. */
  function ByteBits(b: Byte): (bits: seq<Bit>)
    ensures |bits| == 8
  {
    seq(8, k requires 0 <= k < 8 => BitOf(b as bv8, 7 - k))
  }

  /** The big-endian bit string of a byte sequence: the bits of every byte, in order. */
  function BitString(bytes: seq<Byte>): (bits: seq<Bit>)
    ensures |bits| == 8 * |bytes|
  {
    if bytes == [] then [] else BitString(bytes[..|bytes| - 1]) + ByteBits(bytes[|bytes| - 1])
  }

  function Zeros(k: nat): (z: seq<Bit>)
    ensures |z| == k
  {
    seq(k, _ => 0)
  }

  /**
   * The grouping of section 6 of RFC 4648: consecutive 5-bit fields from the most
   * significant end, the last one filled up with zero bits at its low end.
   */
  function Fields(bits: seq<Bit>): (groups: seq<Group>)
    ensures |groups| == (|bits| + 4) / 5
    decreases |bits|
  {
    if |bits| == 0 then []
    else if |bits| < 5 then [Value(bits + Zeros(5 - |bits|))]
    else [Value(bits[..5])] + Fields(bits[5..])
  }

  /** One alphabet character per group. */
  function Symbols(groups: seq<Group>): (s: string)
    ensures |s| == |groups|
  {
    seq(|groups|, i requires 0 <= i < |groups| => Alphabet[groups[i]])
  }

  /**
   * What `encode` computes, as the RFC 4648 grouping of the bytes' bit string: one character
   * per started 5 bits, every one of them from the alphabet.
   */
  function Base32Encode(bytes: seq<Byte>): (s: string)
    ensures |s| == (8 * |bytes| + 4) / 5
    ensures forall c :: c in s ==> c in Alphabet
  {
    Symbols(Fields(BitString(bytes)))
  }

  /** A longer input gives a strictly longer output. */
  lemma EncodedLengthGrows(a: seq<Byte>, b: seq<Byte>)
    requires |a| < |b|
    ensures |Base32Encode(a)| < |Base32Encode(b)|
  {
  }

  /** The bit string of a concatenation is the concatenation of the bit strings. */
  lemma {:induction false} BitStringAppend(a: seq<Byte>, b: seq<Byte>)
    ensures BitString(a + b) == BitString(a) + BitString(b)
    decreases |b|
  {
    if b == [] {
      assert a + b == a;
    } else {
      var init := b[..|b| - 1];
      assert (a + b)[..|a + b| - 1] == a + init;
      BitStringAppend(a, init);
    }
  }

  /** Fields never straddle a boundary that falls on a multiple of five bits. */
  lemma {:induction false} FieldsAppend(a: seq<Bit>, b: seq<Bit>)
    requires |a| % 5 == 0
    ensures Fields(a + b) == Fields(a) + Fields(b)
    decreases |a|
  {
    if a == [] {
      assert a + b == b;
    } else {
      assert (a + b)[..5] == a[..5];
      assert (a + b)[5..] == a[5..] + b;
      FieldsAppend(a[5..], b);
    }
  }

  lemma SymbolsAppend(g: seq<Group>, h: seq<Group>)
    ensures Symbols(g + h) == Symbols(g) + Symbols(h)
  {
  }

  /** Encoding runs of five bytes at a time: whole chunks encode independently. */
  lemma EncodeAppend(a: seq<Byte>, b: seq<Byte>)
    requires |a| % 5 == 0
    ensures Base32Encode(a + b) == Base32Encode(a) + Base32Encode(b)
  {
    BitStringAppend(a, b);
    FieldsAppend(BitString(a), BitString(b));
    SymbolsAppend(Fields(BitString(a)), Fields(BitString(b)));
  }
}
