/**
 * The sortability of lexicoids: for timestamps whose minimal byte strings have the same
 * length, numeric order is Ruby's string order on their encodings.
 */
module Ordering {
  import opened BigEndian
  import opened Bits
  import opened Base32

  /** The code points of a string. */
  function Codes(s: string): (c: seq<int>)
    ensures |c| == |s|
  {
    seq(|s|, i requires 0 <= i < |s| => s[i] as int)
  }

  /**
   * Ruby's `String#<` on these ASCII strings: lexicographic order on code points, the first
   * differing character decides and a proper prefix comes first.
   */
  predicate Precedes(s: string, t: string)
  {
    LexLess(Codes(s), Codes(t))
  }

  /** The alphabet in code points: '2'..'7' and then 'a'..'z'. */
  lemma AlphabetCodes()
    ensures Alphabet == seq(32, i requires 0 <= i < 32 => (if i < 6 then 50 + i else 91 + i) as char)
  {
  }

  /** The alphabet is strictly increasing, so group order is character order. */
  lemma AlphabetOrder(i: Group, j: Group)
    ensures i < j <==> Alphabet[i] < Alphabet[j]
    ensures i == j <==> Alphabet[i] == Alphabet[j]
  {
    AlphabetCodes();
  }

  lemma ByteWeights(x: bv8)
    ensures x as int == 128 * (BitOf(x, 7) as int) + 64 * (BitOf(x, 6) as int) + 32 * (BitOf(x, 5) as int)
      + 16 * (BitOf(x, 4) as int) + 8 * (BitOf(x, 3) as int) + 4 * (BitOf(x, 2) as int)
      + 2 * (BitOf(x, 1) as int) + BitOf(x, 0) as int
  {
  }

  lemma Value8(s: seq<Bit>)
    requires |s| == 8
    ensures Value(s) == 128 * (s[0] as int) + 64 * (s[1] as int) + 32 * (s[2] as int) + 16 * (s[3] as int)
      + 8 * (s[4] as int) + 4 * (s[5] as int) + 2 * (s[6] as int) + s[7] as int
  {
    var v0, v1, v2, v3 := s[0] as int, s[1] as int, s[2] as int, s[3] as int;
    var v4, v5, v6 := s[4] as int, s[5] as int, s[6] as int;
    assert s[..1][..0] == [];
    assert Value(s[..1]) == v0;
    assert s[..2][..1] == s[..1];
    assert Value(s[..2]) == 2 * v0 + v1;
    assert s[..3][..2] == s[..2];
    assert Value(s[..3]) == 4 * v0 + 2 * v1 + v2;
    assert s[..4][..3] == s[..3];
    assert Value(s[..4]) == 8 * v0 + 4 * v1 + 2 * v2 + v3;
    assert s[..5][..4] == s[..4];
    assert Value(s[..5]) == 16 * v0 + 8 * v1 + 4 * v2 + 2 * v3 + v4;
    assert s[..6][..5] == s[..5];
    assert Value(s[..6]) == 32 * v0 + 16 * v1 + 8 * v2 + 4 * v3 + 2 * v4 + v5;
    assert s[..7][..6] == s[..6];
    assert Value(s[..7]) == 64 * v0 + 32 * v1 + 16 * v2 + 8 * v3 + 4 * v4 + 2 * v5 + v6;
    assert s[..7] == s[..|s| - 1];
  }

  lemma CastBack(b: Byte)
    ensures (b as bv8) as int == b
  {
  }

  lemma ByteBitsOf(b: Byte)
    ensures var x, bits := b as bv8, ByteBits(b);
      bits[0] == BitOf(x, 7) && bits[1] == BitOf(x, 6) && bits[2] == BitOf(x, 5) && bits[3] == BitOf(x, 4)
      && bits[4] == BitOf(x, 3) && bits[5] == BitOf(x, 2) && bits[6] == BitOf(x, 1) && bits[7] == BitOf(x, 0)
  {
  }

  /** The bits of a byte weigh back to the byte. */
  lemma ByteBitsValue(b: Byte)
    ensures Value(ByteBits(b)) == b
  {
    var x, bits := b as bv8, ByteBits(b);
    CastBack(b);
    ByteBitsOf(b);
    Value8(bits);
    ByteWeights(x);
  }

  /** The value of the bit string is the big-endian value of the bytes. */
  lemma {:induction false} BitStringValue(bytes: seq<Byte>)
    ensures Value(BitString(bytes)) == Fold(bytes)
  {
    if bytes != [] {
      var init, last := bytes[..|bytes| - 1], bytes[|bytes| - 1];
      assert BitString(bytes) == BitString(init) + ByteBits(last);
      ValueAppend(BitString(init), ByteBits(last));
      assert Pow2(8) == 256;
      BitStringValue(init);
      ByteBitsValue(last);
    }
  }

  lemma LexLessSingleton(x: int, y: int)
    ensures LexLess([x], [y]) <==> x < y
  {
    assert [x][1..] == [] && [y][1..] == [];
  }

  /** On bit strings of equal length, RFC 4648 grouping keeps lexicographic order both ways. */
  lemma {:induction false} FieldsOrder(s: seq<Bit>, t: seq<Bit>)
    requires |s| == |t|
    ensures LexLess(s, t) <==> LexLess(Fields(s), Fields(t))
    decreases |s|
  {
    if |s| == 0 {
    } else if |s| < 5 {
      var z := Zeros(5 - |s|);
      LexLessAppend(s, z, t, z);
      LexLessIrreflexive(z);
      LexLessIffValueLess(s + z, t + z);
      LexLessSingleton(Value(s + z), Value(t + z));
    } else {
      var s5, t5 := s[..5], t[..5];
      assert s == s5 + s[5..] && t == t5 + t[5..];
      LexLessAppend(s5, s[5..], t5, t[5..]);
      LexLessIffValueLess(s5, t5);
      if Value(s5) == Value(t5) {
        ValueInjective(s5, t5);
      }
      FieldsOrder(s[5..], t[5..]);
      var vs, vt := Value(s5), Value(t5);
      assert Fields(s) == [vs] + Fields(s[5..]) && Fields(t) == [vt] + Fields(t[5..]);
      LexLessAppend([vs], Fields(s[5..]), [vt], Fields(t[5..]));
      LexLessSingleton(vs, vt);
    }
  }

  /** Spelling equal-length group sequences in the alphabet keeps their order both ways. */
  lemma {:induction false} SymbolsOrder(g: seq<Group>, h: seq<Group>)
    requires |g| == |h|
    ensures LexLess(g, h) <==> Precedes(Symbols(g), Symbols(h))
    decreases |g|
  {
    if g != [] {
      assert Symbols(g)[1..] == Symbols(g[1..]) && Symbols(h)[1..] == Symbols(h[1..]);
      assert Codes(Symbols(g))[1..] == Codes(Symbols(g[1..])) && Codes(Symbols(h))[1..] == Codes(Symbols(h[1..]));
      AlphabetOrder(g[0], h[0]);
      SymbolsOrder(g[1..], h[1..]);
    }
  }

  /**
   * Within one byte length, lexicoids sort as their timestamps do: `a < b` exactly when the
   * encoding of `a` precedes that of `b`.
   */
  lemma SortableWithinByteLength(a: nat, b: nat)
    requires |MinimalBytes(a)| == |MinimalBytes(b)|
    ensures a < b <==> Precedes(Base32Encode(MinimalBytes(a)), Base32Encode(MinimalBytes(b)))
  {
    var x, y := MinimalBytes(a), MinimalBytes(b);
    MinimalBytesValue(a);
    MinimalBytesValue(b);
    BitStringValue(x);
    BitStringValue(y);
    LexLessIffValueLess(BitString(x), BitString(y));
    FieldsOrder(BitString(x), BitString(y));
    SymbolsOrder(Fields(BitString(x)), Fields(BitString(y)));
  }
}
