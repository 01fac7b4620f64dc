/** `Lexicoid.encode` (lib/lexicoid.rb): bytes to lexicographic Base32, five bytes at a time. */
module Encoder {
  import opened BigEndian
  import opened Base32
  import opened Packing

  /*
   * The five blocks of the unrolled packing, one per byte of the chunk, last byte first.
   * Each writes the groups its byte reaches and ORs its low bits into the group it shares
   * with the next byte.
   */

  method PackFifthByte(buffer: array<bv8>, x4: bv8)
    requires buffer.Length == 8
    modifies buffer
    ensures buffer[7] == x4 & 0x1F && buffer[6] == x4 >> 5
    ensures forall i :: 0 <= i < 6 ==> buffer[i] == old(buffer[i])
  {
    buffer[7] := x4 & 0x1F;
    buffer[6] := x4 >> 5;
  }

  method PackFourthByte(buffer: array<bv8>, x3: bv8)
    requires buffer.Length >= 7
    modifies buffer
    ensures buffer[6] == old(buffer[6]) | ((x3 << 3) & 0x1F)
    ensures buffer[5] == (x3 >> 2) & 0x1F && buffer[4] == x3 >> 7
    ensures forall i :: 0 <= i < buffer.Length && (i < 4 || i > 6) ==> buffer[i] == old(buffer[i])
  {
    buffer[6] := buffer[6] | ((x3 << 3) & 0x1F);
    buffer[5] := (x3 >> 2) & 0x1F;
    buffer[4] := x3 >> 7;
  }

  method PackThirdByte(buffer: array<bv8>, x2: bv8)
    requires buffer.Length >= 5
    modifies buffer
    ensures buffer[4] == old(buffer[4]) | ((x2 << 1) & 0x1F) && buffer[3] == (x2 >> 4) & 0x1F
    ensures forall i :: 0 <= i < buffer.Length && (i < 3 || i > 4) ==> buffer[i] == old(buffer[i])
  {
    buffer[4] := buffer[4] | ((x2 << 1) & 0x1F);
    buffer[3] := (x2 >> 4) & 0x1F;
  }

  method PackSecondByte(buffer: array<bv8>, x1: bv8)
    requires buffer.Length >= 4
    modifies buffer
    ensures buffer[3] == old(buffer[3]) | ((x1 << 4) & 0x1F)
    ensures buffer[2] == (x1 >> 1) & 0x1F && buffer[1] == (x1 >> 6) & 0x1F
    ensures forall i :: 0 <= i < buffer.Length && (i < 1 || i > 3) ==> buffer[i] == old(buffer[i])
  {
    buffer[3] := buffer[3] | ((x1 << 4) & 0x1F);
    buffer[2] := (x1 >> 1) & 0x1F;
    buffer[1] := (x1 >> 6) & 0x1F;
  }

  method PackFirstByte(buffer: array<bv8>, x0: bv8)
    requires buffer.Length >= 2
    modifies buffer
    ensures buffer[1] == old(buffer[1]) | ((x0 << 2) & 0x1F) && buffer[0] == x0 >> 3
    ensures forall i :: 2 <= i < buffer.Length ==> buffer[i] == old(buffer[i])
  {
    buffer[1] := buffer[1] | ((x0 << 2) & 0x1F);
    buffer[0] := x0 >> 3;
  }

  /**
   * The unrolled blocks of one round of `encode`'s loop, run on a zeroed buffer with one
   * slot per group: each block runs when the chunk has its byte, and afterwards every slot
   * holds the packed group at its position.
   */
  method PackBytes(buffer: array<bv8>, bytes: seq<Byte>)
    requires 0 < |bytes| && buffer.Length == GroupCount(|bytes|)
    requires forall i :: 0 <= i < buffer.Length ==> buffer[i] == 0
    modifies buffer
    ensures forall j :: 0 <= j < buffer.Length ==> buffer[j] == PackedGroup(bytes, j)
  {
    var length := |bytes|;
    if length > 4 {
      PackFifthByte(buffer, bytes[4] as bv8);
    }
    if length >= 4 {
      PackFourthByte(buffer, bytes[3] as bv8);
    }
    if length >= 3 {
      PackThirdByte(buffer, bytes[2] as bv8);
    }
    if length >= 2 {
      PackSecondByte(buffer, bytes[1] as bv8);
    }
    if length >= 1 {
      PackFirstByte(buffer, bytes[0] as bv8);
    }
    forall j | 0 <= j < buffer.Length
      ensures buffer[j] == PackedGroup(bytes, j)
    {
      if j == 0 {
      } else if j == 1 {
      } else if j == 2 {
      } else if j == 3 {
      } else if j == 4 {
      } else if j == 5 {
      } else if j == 6 {
      } else {
      }
    }
  }

  /**
   * One round of `encode`'s loop: the next (up to) five bytes packed into a fresh buffer of
   * 5-bit groups (two for one byte, four for two, five for three, seven for four, eight for
   * five), each the RFC 4648 field at that position of the chunk.
   */
  method PackChunk(bytes: seq<Byte>) returns (buffer: array<bv8>)
    requires |bytes| > 0
    ensures fresh(buffer)
    ensures buffer.Length <= 8
    ensures buffer[..] == PackedGroups(bytes)
  {
    var length := |bytes|;
    if length == 1 || length == 2 {
      buffer := new bv8[length * 2](_ => 0);
    } else if length == 3 || length == 4 {
      buffer := new bv8[length * 2 - 1](_ => 0);
    } else {
      buffer := new bv8[8](_ => 0);
    }
    PackBytes(buffer, bytes);
    assert buffer[..] == PackedGroups(bytes);
  }

  /** Groups looked up in the alphabet, each masked to five bits first as `encode` does. */
  function Spell(groups: seq<bv8>): (s: string)
    ensures |s| == |groups|
  {
    seq(|groups|, k requires 0 <= k < |groups| => Alphabet[(groups[k] & 31) as int])
  }

  /**
   * The output of `encode` round by round: the packed groups of the next chunk spelt in the
   * alphabet, then, after a full chunk, the rest.
   */
  function ChunkedEncode(bytes: seq<Byte>): string
    decreases |bytes|
  {
    if bytes == [] then ""
    else if |bytes| < 5 then Spell(PackedGroups(bytes))
    else Spell(PackedGroups(bytes)) + ChunkedEncode(bytes[5..])
  }

  lemma MaskGroup(g: bv8)
    requires g < 32
    ensures g & 31 == g
  {
  }

  /** One round's characters are the encoding of its chunk. */
  lemma SpellChunk(bytes: seq<Byte>)
    requires |bytes| > 0
    ensures Spell(PackedGroups(bytes)) == Base32Encode(ChunkOf(bytes))
  {
    PackedFields(bytes);
    var groups := PackedGroups(bytes);
    forall j | 0 <= j < |groups|
      ensures groups[j] & 31 == groups[j]
    {
      MaskGroup(groups[j]);
    }
  }

  /** Encoding five bytes at a time gives the RFC 4648 grouping of the whole bit string. */
  lemma {:induction false} ChunkedEncodeGrouping(bytes: seq<Byte>)
    ensures ChunkedEncode(bytes) == Base32Encode(bytes)
    decreases |bytes|
  {
    if bytes == [] {
      assert BitString(bytes) == [];
    } else if |bytes| < 5 {
      SpellChunk(bytes);
    } else {
      SpellChunk(bytes);
      ChunkedEncodeGrouping(bytes[5..]);
      assert bytes == ChunkOf(bytes) + bytes[5..];
      EncodeAppend(ChunkOf(bytes), bytes[5..]);
    }
  }

  /**
   * The end of a round of `encode`: every group of the buffer, masked to five bits, looked up
   * in the alphabet and stored at its position after `offset`.
   */
  method WriteGroups(result: array<char>, offset: nat, groups: seq<bv8>)
    requires offset + |groups| <= result.Length
    modifies result
    ensures result[..offset + |groups|] == old(result[..offset]) + Spell(groups)
    ensures result[offset + |groups|..] == old(result[offset + |groups|..])
  {
    for i := 0 to |groups|
      invariant result[..offset] == old(result[..offset])
      invariant result[offset + |groups|..] == old(result[offset + |groups|..])
      invariant forall k :: 0 <= k < i ==> result[offset + k] == Spell(groups)[k]
    {
      result[i + offset] := Alphabet[(groups[i] & 31) as int];
    }
    assert result[..offset + |groups|] == old(result[..offset]) + Spell(groups);
  }

  /**
   * `encode`: the result array sized for the whole output, then one chunk of up to five bytes
   * per round, its groups written as alphabet characters at `offset`, until fewer than five
   * bytes were left or none remain. The result is the RFC 4648 grouping of the input's bit
   * string, spelt in the lexicographic alphabet.
   */
  method Encode(bytes: seq<Byte>) returns (result: array<char>)
    ensures fresh(result)
    ensures result[..] == Base32Encode(bytes)
  {
    result := new char[(|bytes| * 8 + 4) / 5];
    ChunkedEncodeGrouping(bytes);
    var offset := 0;
    var rest := bytes;
    while |rest| > 0
      invariant offset + |ChunkedEncode(rest)| == result.Length
      invariant result[..offset] + ChunkedEncode(rest) == ChunkedEncode(bytes)
      decreases |rest|
    {
      var buffer := PackChunk(rest);
      WriteGroups(result, offset, buffer[..]);
      if |rest| < 5 {
        assert result[..] == result[..offset + buffer.Length];
        break;
      }
      rest := rest[5..];
      offset := offset + 8;
    }
    if rest == [] {
      assert result[..] == result[..offset];
    }
  }
}
