/**
 * The examples of the repository's test suite (test/test_lexicoid.rb,
 * test/core_ext/test_kernel.rb), each split into the bytes of the timestamp and the
 * characters the rounds of `encode` write for them.
 */
module Vectors {
  import opened Results
  import opened BigEndian
  import opened Packing
  import opened Encoder
  import opened Normalizer
  import opened Ordering
  import opened Lexicoid

  lemma CastOf(b: Byte, x: bv8)
    requires x as int == b
    ensures b as bv8 == x
  {
  }

  /** The eight groups of the unrolled packing of x0 .. x4. */
  function Packs(x0: bv8, x1: bv8, x2: bv8, x3: bv8, x4: bv8): seq<bv8>
  {
    [Pack(x0, x1, x2, x3, x4, 0), Pack(x0, x1, x2, x3, x4, 1), Pack(x0, x1, x2, x3, x4, 2), Pack(x0, x1, x2, x3, x4, 3),
     Pack(x0, x1, x2, x3, x4, 4), Pack(x0, x1, x2, x3, x4, 5), Pack(x0, x1, x2, x3, x4, 6), Pack(x0, x1, x2, x3, x4, 7)]
  }

  /** The packed groups of a chunk whose bytes are x0 .. x4, a missing byte reading as 0. */
  lemma GroupsOf(bytes: seq<Byte>, x0: bv8, x1: bv8, x2: bv8, x3: bv8, x4: bv8, groups: seq<bv8>)
    requires X(bytes, 0) == x0 && X(bytes, 1) == x1 && X(bytes, 2) == x2 && X(bytes, 3) == x3 && X(bytes, 4) == x4
    requires |groups| == GroupCount(|bytes|)
    requires groups == Packs(x0, x1, x2, x3, x4)[..|groups|]
    ensures PackedGroups(bytes) == groups
  {
    var p := Packs(x0, x1, x2, x3, x4);
    forall j | 0 <= j < |groups|
      ensures PackedGroups(bytes)[j] == groups[j]
    {
      assert groups[j] == p[j];
      if j == 0 {} else if j == 1 {} else if j == 2 {} else if j == 3 {}
      else if j == 4 {} else if j == 5 {} else if j == 6 {} else {}
    }
  }

  /** The ID of `n`, given its minimal bytes and the characters the rounds of `encode` write. */
  lemma IdOf(n: nat, bytes: seq<Byte>, id: string)
    requires Fold(bytes) == n && |bytes| >= 1 && (bytes[0] != 0 || |bytes| == 1)
    requires ChunkedEncode(bytes) == id
    ensures LexicoidOf(Integer(n)) == Success(id)
  {
    MinimalBytesUnique(bytes, n);
    ChunkedEncodeGrouping(bytes);
  }

  lemma ZeroFold()
    ensures Fold([0]) == 0
  {
    assert [0][..0] == [];
  }

  lemma ZeroGroups()
    ensures PackedGroups([0]) == [0, 0]
  {
    var g := PackedGroups([0]);
    assert g[0] == 0 && g[1] == 0;
  }

  lemma ZeroPacks()
    ensures Spell([0, 0]) == "22"
  {
  }

  lemma ZeroChars()
    ensures ChunkedEncode([0]) == "22"
  {
    ZeroGroups();
    ZeroPacks();
  }

  /** The epoch. */
  lemma Zero()
    ensures LexicoidOf(Integer(0)) == Success("22")
  {
    ZeroFold();
    ZeroChars();
    IdOf(0, [0], "22");
  }

  lemma HundredFold()
    ensures Fold([100]) == 100
  {
    assert [100][..0] == [];
  }

  lemma HundredGroups()
    ensures PackedGroups([100]) == [12, 16]
  {
    var g := PackedGroups([100]);
    assert g[0] == 12 && g[1] == 16;
  }

  lemma HundredPacks()
    ensures Spell([12, 16]) == "gk"
  {
  }

  lemma HundredChars()
    ensures ChunkedEncode([100]) == "gk"
  {
    HundredGroups();
    HundredPacks();
  }

  /** One byte. */
  lemma Hundred()
    ensures LexicoidOf(Integer(100)) == Success("gk")
  {
    HundredFold();
    HundredChars();
    IdOf(100, [100], "gk");
  }

  lemma TenThousandFold()
    ensures Fold([39, 16]) == 10000
  {
    assert Fold([39]) == 39;
    assert [39, 16][..1] == [39];
  }

  lemma TenThousandGroups()
    ensures PackedGroups([39, 16]) == [4, 28, 8, 0]
  {
    var g := PackedGroups([39, 16]);
    assert g[0] == 4 && g[1] == 28 && g[2] == 8 && g[3] == 0;
  }

  lemma TenThousandPacks()
    ensures Spell([4, 28, 8, 0]) == "6wc2"
  {
  }

  lemma TenThousandChars()
    ensures ChunkedEncode([39, 16]) == "6wc2"
  {
    TenThousandGroups();
    TenThousandPacks();
  }

  /** Two bytes. */
  lemma TenThousand()
    ensures LexicoidOf(Integer(10000)) == Success("6wc2")
  {
    TenThousandFold();
    TenThousandChars();
    IdOf(10000, [39, 16], "6wc2");
  }

  lemma TwoToThe32Fold()
    ensures Fold([1, 0, 0, 0, 0]) == 0x1_0000_0000
  {
    assert Fold([1]) == 1;
    assert Fold([1, 0]) == 256 by { assert [1, 0][..1] == [1]; }
    assert Fold([1, 0, 0]) == 65536 by { assert [1, 0, 0][..2] == [1, 0]; }
    assert Fold([1, 0, 0, 0]) == 16777216 by { assert [1, 0, 0, 0][..3] == [1, 0, 0]; }
    assert [1, 0, 0, 0, 0][..4] == [1, 0, 0, 0];
  }

  lemma TwoToThe32Bytes()
    ensures X([1, 0, 0, 0, 0], 0) == 1 && X([1, 0, 0, 0, 0], 1) == 0 && X([1, 0, 0, 0, 0], 2) == 0
    ensures X([1, 0, 0, 0, 0], 3) == 0 && X([1, 0, 0, 0, 0], 4) == 0
  {
    CastOf(1, 1);
  }

  lemma TwoToThe32Packs()
    ensures [0, 4, 0, 0, 0, 0, 0, 0] == Packs(1, 0, 0, 0, 0)[..8]
    ensures Spell([0, 4, 0, 0, 0, 0, 0, 0]) == "26222222"
  {
  }

  lemma TwoToThe32Groups()
    ensures PackedGroups([1, 0, 0, 0, 0]) == [0, 4, 0, 0, 0, 0, 0, 0]
  {
    TwoToThe32Bytes();
    TwoToThe32Packs();
    GroupsOf([1, 0, 0, 0, 0], 1, 0, 0, 0, 0, [0, 4, 0, 0, 0, 0, 0, 0]);
  }

  lemma TwoToThe32Chars()
    ensures ChunkedEncode([1, 0, 0, 0, 0]) == "26222222"
  {
    TwoToThe32Groups();
    TwoToThe32Packs();
    assert [1, 0, 0, 0, 0][5..] == [];
  }

  /** Five bytes: one full round. */
  lemma TwoToThe32()
    ensures LexicoidOf(Integer(0x1_0000_0000)) == Success("26222222")
  {
    TwoToThe32Fold();
    TwoToThe32Chars();
    IdOf(0x1_0000_0000, [1, 0, 0, 0, 0], "26222222");
  }

  lemma LargestInt64Fold()
    ensures Fold([127, 255, 255, 255, 255, 255, 255, 255]) == 0x7FFF_FFFF_FFFF_FFFF
  {
    assert Fold([127]) == 127;
    assert Fold([127, 255]) == 32767 by { assert [127, 255][..1] == [127]; }
    assert Fold([127, 255, 255]) == 8388607 by { assert [127, 255, 255][..2] == [127, 255]; }
    assert Fold([127, 255, 255, 255]) == 2147483647 by { assert [127, 255, 255, 255][..3] == [127, 255, 255]; }
    assert Fold([127, 255, 255, 255, 255]) == 549755813887 by { assert [127, 255, 255, 255, 255][..4] == [127, 255, 255, 255]; }
    assert Fold([127, 255, 255, 255, 255, 255]) == 140737488355327 by { assert [127, 255, 255, 255, 255, 255][..5] == [127, 255, 255, 255, 255]; }
    assert Fold([127, 255, 255, 255, 255, 255, 255]) == 36028797018963967 by { assert [127, 255, 255, 255, 255, 255, 255][..6] == [127, 255, 255, 255, 255, 255]; }
    assert [127, 255, 255, 255, 255, 255, 255, 255][..7] == [127, 255, 255, 255, 255, 255, 255];
  }

  lemma LargestInt64Round1Bytes()
    ensures X([127, 255, 255, 255, 255, 255, 255, 255], 0) == 127 && X([127, 255, 255, 255, 255, 255, 255, 255], 1) == 255 && X([127, 255, 255, 255, 255, 255, 255, 255], 2) == 255
    ensures X([127, 255, 255, 255, 255, 255, 255, 255], 3) == 255 && X([127, 255, 255, 255, 255, 255, 255, 255], 4) == 255
  {
    CastOf(127, 127);
    CastOf(255, 255);
  }

  lemma LargestInt64Round1Packs()
    ensures [15, 31, 31, 31, 31, 31, 31, 31] == Packs(127, 255, 255, 255, 255)[..8]
    ensures Spell([15, 31, 31, 31, 31, 31, 31, 31]) == "jzzzzzzz"
  {
  }

  lemma LargestInt64Round1Groups()
    ensures PackedGroups([127, 255, 255, 255, 255, 255, 255, 255]) == [15, 31, 31, 31, 31, 31, 31, 31]
  {
    LargestInt64Round1Bytes();
    LargestInt64Round1Packs();
    GroupsOf([127, 255, 255, 255, 255, 255, 255, 255], 127, 255, 255, 255, 255, [15, 31, 31, 31, 31, 31, 31, 31]);
  }

  lemma LargestInt64Round2Bytes()
    ensures X([255, 255, 255], 0) == 255 && X([255, 255, 255], 1) == 255 && X([255, 255, 255], 2) == 255
    ensures X([255, 255, 255], 3) == 0 && X([255, 255, 255], 4) == 0
  {
    CastOf(255, 255);
  }

  lemma LargestInt64Round2Packs()
    ensures [31, 31, 31, 31, 30] == Packs(255, 255, 255, 0, 0)[..5]
    ensures Spell([31, 31, 31, 31, 30]) == "zzzzy"
  {
  }

  lemma LargestInt64Round2Groups()
    ensures PackedGroups([255, 255, 255]) == [31, 31, 31, 31, 30]
  {
    LargestInt64Round2Bytes();
    LargestInt64Round2Packs();
    GroupsOf([255, 255, 255], 255, 255, 255, 0, 0, [31, 31, 31, 31, 30]);
  }

  lemma LargestInt64Chars()
    ensures ChunkedEncode([127, 255, 255, 255, 255, 255, 255, 255]) == "jzzzzzzzzzzzy"
  {
    LargestInt64Round1Groups();
    LargestInt64Round1Packs();
    LargestInt64Round2Groups();
    LargestInt64Round2Packs();
    assert [127, 255, 255, 255, 255, 255, 255, 255][5..] == [255, 255, 255];
  }

  /** Eight bytes: a full round and a round of three. */
  lemma LargestInt64()
    ensures LexicoidOf(Integer(0x7FFF_FFFF_FFFF_FFFF)) == Success("jzzzzzzzzzzzy")
  {
    LargestInt64Fold();
    LargestInt64Chars();
    IdOf(0x7FFF_FFFF_FFFF_FFFF, [127, 255, 255, 255, 255, 255, 255, 255], "jzzzzzzzzzzzy");
  }

  lemma JanuaryFirstFold()
    ensures Fold([99, 203, 208, 236]) == 1674301676
  {
    assert Fold([99]) == 99;
    assert Fold([99, 203]) == 25547 by { assert [99, 203][..1] == [99]; }
    assert Fold([99, 203, 208]) == 6540240 by { assert [99, 203, 208][..2] == [99, 203]; }
    assert [99, 203, 208, 236][..3] == [99, 203, 208];
  }

  lemma JanuaryFirstBytes()
    ensures X([99, 203, 208, 236], 0) == 99 && X([99, 203, 208, 236], 1) == 203 && X([99, 203, 208, 236], 2) == 208
    ensures X([99, 203, 208, 236], 3) == 236 && X([99, 203, 208, 236], 4) == 0
  {
    CastOf(99, 99);
    CastOf(203, 203);
    CastOf(208, 208);
    CastOf(236, 236);
  }

  lemma JanuaryFirstPacks()
    ensures [12, 15, 5, 29, 1, 27, 0] == Packs(99, 203, 208, 236, 0)[..7]
    ensures Spell([12, 15, 5, 29, 1, 27, 0]) == "gj7x3v2"
  {
  }

  lemma JanuaryFirstGroups()
    ensures PackedGroups([99, 203, 208, 236]) == [12, 15, 5, 29, 1, 27, 0]
  {
    JanuaryFirstBytes();
    JanuaryFirstPacks();
    GroupsOf([99, 203, 208, 236], 99, 203, 208, 236, 0, [12, 15, 5, 29, 1, 27, 0]);
  }

  lemma JanuaryFirstChars()
    ensures ChunkedEncode([99, 203, 208, 236]) == "gj7x3v2"
  {
    JanuaryFirstGroups();
    JanuaryFirstPacks();
  }

  /** Two adjacent seconds of January 2023, in order. */
  lemma JanuaryFirst()
    ensures LexicoidOf(Integer(1674301676)) == Success("gj7x3v2")
  {
    JanuaryFirstFold();
    JanuaryFirstChars();
    IdOf(1674301676, [99, 203, 208, 236], "gj7x3v2");
  }

  lemma JanuarySecondFold()
    ensures Fold([99, 203, 208, 237]) == 1674301677
  {
    assert Fold([99]) == 99;
    assert Fold([99, 203]) == 25547 by { assert [99, 203][..1] == [99]; }
    assert Fold([99, 203, 208]) == 6540240 by { assert [99, 203, 208][..2] == [99, 203]; }
    assert [99, 203, 208, 237][..3] == [99, 203, 208];
  }

  lemma JanuarySecondBytes()
    ensures X([99, 203, 208, 237], 0) == 99 && X([99, 203, 208, 237], 1) == 203 && X([99, 203, 208, 237], 2) == 208
    ensures X([99, 203, 208, 237], 3) == 237 && X([99, 203, 208, 237], 4) == 0
  {
    CastOf(99, 99);
    CastOf(203, 203);
    CastOf(208, 208);
    CastOf(237, 237);
  }

  lemma JanuarySecondPacks()
    ensures [12, 15, 5, 29, 1, 27, 8] == Packs(99, 203, 208, 237, 0)[..7]
    ensures Spell([12, 15, 5, 29, 1, 27, 8]) == "gj7x3vc"
  {
  }

  lemma JanuarySecondGroups()
    ensures PackedGroups([99, 203, 208, 237]) == [12, 15, 5, 29, 1, 27, 8]
  {
    JanuarySecondBytes();
    JanuarySecondPacks();
    GroupsOf([99, 203, 208, 237], 99, 203, 208, 237, 0, [12, 15, 5, 29, 1, 27, 8]);
  }

  lemma JanuarySecondChars()
    ensures ChunkedEncode([99, 203, 208, 237]) == "gj7x3vc"
  {
    JanuarySecondGroups();
    JanuarySecondPacks();
  }

  lemma JanuarySecond()
    ensures LexicoidOf(Integer(1674301677)) == Success("gj7x3vc")
  {
    JanuarySecondFold();
    JanuarySecondChars();
    IdOf(1674301677, [99, 203, 208, 237], "gj7x3vc");
  }

  /** `now` with the clock standing at 1678943067 seconds past the epoch. */
  lemma NowExample()
    ensures LexicoidOf(Instant(1678943067.0)) == Success("gkdeaqs")
  {
    Clock();
  }

  lemma ClockFold()
    ensures Fold([100, 18, 163, 91]) == 1678943067
  {
    assert Fold([100]) == 100;
    assert Fold([100, 18]) == 25618 by { assert [100, 18][..1] == [100]; }
    assert Fold([100, 18, 163]) == 6558371 by { assert [100, 18, 163][..2] == [100, 18]; }
    assert [100, 18, 163, 91][..3] == [100, 18, 163];
  }

  lemma ClockBytes()
    ensures X([100, 18, 163, 91], 0) == 100 && X([100, 18, 163, 91], 1) == 18 && X([100, 18, 163, 91], 2) == 163
    ensures X([100, 18, 163, 91], 3) == 91 && X([100, 18, 163, 91], 4) == 0
  {
    CastOf(18, 18);
    CastOf(91, 91);
    CastOf(100, 100);
    CastOf(163, 163);
  }

  lemma ClockPacks()
    ensures [12, 16, 9, 10, 6, 22, 24] == Packs(100, 18, 163, 91, 0)[..7]
    ensures Spell([12, 16, 9, 10, 6, 22, 24]) == "gkdeaqs"
  {
  }

  lemma ClockGroups()
    ensures PackedGroups([100, 18, 163, 91]) == [12, 16, 9, 10, 6, 22, 24]
  {
    ClockBytes();
    ClockPacks();
    GroupsOf([100, 18, 163, 91], 100, 18, 163, 91, 0, [12, 16, 9, 10, 6, 22, 24]);
  }

  lemma ClockChars()
    ensures ChunkedEncode([100, 18, 163, 91]) == "gkdeaqs"
  {
    ClockGroups();
    ClockPacks();
  }

  lemma Clock()
    ensures LexicoidOf(Integer(1678943067)) == Success("gkdeaqs")
  {
    ClockFold();
    ClockChars();
    IdOf(1678943067, [100, 18, 163, 91], "gkdeaqs");
  }

  /**
   * Across byte lengths the order breaks: 100 (one byte) comes before 10000 (two bytes),
   * but "6wc2" sorts before "gk".
   */
  lemma NotSortableAcrossByteLengths()
    ensures LexicoidOf(Integer(100)) == Success("gk") && LexicoidOf(Integer(10000)) == Success("6wc2")
    ensures Precedes("6wc2", "gk")
  {
    Hundred();
    TenThousand();
  }

  /** The rejected arguments of the test suite. */
  lemma Rejections()
    ensures LexicoidOf(Instant(-1.0)) == Failure(After)
    ensures LexicoidOf(Convertible(Instant(-1.0))) == Failure(After)
    ensures LexicoidOf(Integer(-1)) == Failure(NonNegative)
    ensures LexicoidOf(Float(-1.0)) == Failure(NonNegative)
    ensures LexicoidOf(Unsupported) == Failure(OneOf)
  {
  }
}
