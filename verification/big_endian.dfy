/**
 * Minimal big-endian byte representation of a non-negative integer
 * (`Lexicoid.bytes_from_number`, lib/lexicoid.rb).
 */
module BigEndian {

  /** An element of the byte arrays the encoder works on: an Integer in 0..255. */
  type Byte = x: int | 0 <= x < 256

  function Pow256(k: nat): (p: nat)
    ensures p >= 1
  {
    if k == 0 then 1 else 256 * Pow256(k - 1)
  }

  /**
   * The big-endian value of a byte sequence, the sum of bytes[i] * 256^(|bytes|-1-i),
   * computed by Horner's rule.
   */
  function Fold(bytes: seq<Byte>): nat
  {
    if bytes == [] then 0 else 256 * Fold(bytes[..|bytes| - 1]) + bytes[|bytes| - 1]
  }

  /** The base-256 digits of `n`, most significant first, without leading zeros (empty for 0). */
  function Digits(n: nat): (d: seq<Byte>)
    ensures n > 0 ==> |d| > 0 && d[0] != 0
    decreases n
  {
    if n == 0 then [] else Digits(n / 256) + [n % 256]
  }

  /** The byte array `bytes_from_number` returns: 0 is `[0]`, anything else its digits. */
  function MinimalBytes(n: nat): (bytes: seq<Byte>)
    ensures |bytes| >= 1
    ensures bytes[0] == 0 <==> n == 0
  {
    if n == 0 then [0] else Digits(n)
  }

  /** The loop of `bytes_from_number`: prepend the low byte, shift right by 8, until nothing is left. */
  method BytesFromNumber(number: nat) returns (bytes: seq<Byte>)
    ensures bytes == MinimalBytes(number)
  {
    bytes := [];
    if number == 0 {
      bytes := [0] + bytes;
      return;
    }
    var rest := number;
    while rest > 0
      invariant Digits(rest) + bytes == Digits(number)
      decreases rest
    {
      assert Digits(rest) == Digits(rest / 256) + [rest % 256];
      bytes := [rest % 256] + bytes;
      rest := rest / 256;
    }
  }

  lemma {:induction false} FoldDigits(n: nat)
    ensures Fold(Digits(n)) == n
    decreases n
  {
    if n > 0 {
      FoldDigits(n / 256);
      var d := Digits(n);
      assert d[..|d| - 1] == Digits(n / 256);
    }
  }

  /** Folding the bytes back in big-endian order gives the number again. */
  lemma MinimalBytesValue(n: nat)
    ensures Fold(MinimalBytes(n)) == n
  {
    if n == 0 {
      assert Fold([0]) == 256 * Fold([]) + 0;
    } else {
      FoldDigits(n);
    }
  }

  lemma {:induction false} FoldBound(bytes: seq<Byte>)
    ensures Fold(bytes) < Pow256(|bytes|)
  {
    if bytes != [] {
      FoldBound(bytes[..|bytes| - 1]);
    }
  }

  lemma {:induction false} FoldLeading(bytes: seq<Byte>)
    requires |bytes| >= 1 && bytes[0] != 0
    ensures Fold(bytes) >= Pow256(|bytes| - 1)
  {
    if |bytes| > 1 {
      var init := bytes[..|bytes| - 1];
      assert init[0] == bytes[0];
      FoldLeading(init);
    }
  }

  lemma {:induction false} Pow256Monotone(i: nat, j: nat)
    requires i <= j
    ensures Pow256(i) <= Pow256(j)
    decreases j
  {
    if i < j {
      Pow256Monotone(i, j - 1);
    }
  }

  /**
   * The representation is canonical: any byte sequence without a leading zero byte
   * (or the single byte 0) that folds to `n` is the one `bytes_from_number` produces.
   */
  lemma {:induction false} MinimalBytesUnique(bytes: seq<Byte>, n: nat)
    requires |bytes| >= 1 && (bytes[0] != 0 || |bytes| == 1)
    requires Fold(bytes) == n
    ensures bytes == MinimalBytes(n)
    decreases |bytes|
  {
    var init := bytes[..|bytes| - 1];
    assert Fold(init) == n / 256 && bytes[|bytes| - 1] == n % 256;
    if |bytes| == 1 {
      assert init == [];
      if n > 0 {
        assert Digits(n) == Digits(0) + [n];
      }
    } else {
      assert init[0] == bytes[0];
      FoldLeading(init);
      MinimalBytesUnique(init, n / 256);
      assert bytes == init + [n % 256];
    }
  }

  /**
   * The byte-length classes: `n` needs at most `k` bytes exactly when it is below 256^k.
   */
  lemma MinimalBytesLength(n: nat, k: nat)
    requires k >= 1
    ensures |MinimalBytes(n)| <= k <==> n < Pow256(k)
  {
    var bytes := MinimalBytes(n);
    MinimalBytesValue(n);
    FoldBound(bytes);
    if |bytes| <= k {
      Pow256Monotone(|bytes|, k);
    } else {
      FoldLeading(bytes);
      Pow256Monotone(k, |bytes| - 1);
    }
  }
}
