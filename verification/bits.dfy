/** Big-endian bit strings, their values, and the lexicographic order on sequences. */
module Bits {

  type Bit = x: int | 0 <= x < 2

  function Pow2(k: nat): (p: nat)
    ensures p >= 1
  {
    if k == 0 then 1 else 2 * Pow2(k - 1)
  }

  /** The value of a big-endian bit string; it fits in |bits| bits. */
  function Value(bits: seq<Bit>): (v: nat)
    ensures v < Pow2(|bits|)
  {
    if bits == [] then 0 else 2 * Value(bits[..|bits| - 1]) + bits[|bits| - 1]
  }

  lemma {:induction false} ValueAppend(a: seq<Bit>, b: seq<Bit>)
    ensures Value(a + b) == Value(a) * Pow2(|b|) + Value(b)
    decreases |b|
  {
    if b == [] {
      assert a + b == a;
    } else {
      var b' := b[..|b| - 1];
      assert (a + b)[..|a + b| - 1] == a + b';
      ValueAppend(a, b');
      var va, p := Value(a), Pow2(|b'|);
      assert Pow2(|b|) == 2 * p;
      assert Value(b) == 2 * Value(b') + b[|b| - 1];
      assert Value(a + b) == 2 * Value(a + b') + b[|b| - 1];
      MulTwice(va, p);
    }
  }

  lemma MulTwice(x: nat, y: nat)
    ensures 2 * (x * y) == x * (2 * y)
  {
  }

  /** Strict lexicographic order on integer sequences (a proper prefix comes first). */
  predicate LexLess(s: seq<int>, t: seq<int>)
  {
    if s == [] then t != []
    else if t == [] then false
    else s[0] < t[0] || (s[0] == t[0] && LexLess(s[1..], t[1..]))
  }

  lemma {:induction false} LexLessIrreflexive(s: seq<int>)
    ensures !LexLess(s, s)
  {
    if s != [] {
      LexLessIrreflexive(s[1..]);
    }
  }

  /** Comparing two concatenations whose first parts have equal length. */
  lemma {:induction false} LexLessAppend(a: seq<int>, b: seq<int>, c: seq<int>, d: seq<int>)
    requires |a| == |c|
    ensures LexLess(a + b, c + d) <==> LexLess(a, c) || (a == c && LexLess(b, d))
  {
    if a == [] {
      assert a + b == b && c + d == d;
    } else {
      assert (a + b)[1..] == a[1..] + b && (c + d)[1..] == c[1..] + d;
      LexLessAppend(a[1..], b, c[1..], d);
      if a[0] == c[0] && a[1..] == c[1..] {
        assert a == c;
      }
      if !LexLess(a, c) && a != c && (a + b)[0] == (c + d)[0] {
        assert a[1..] != c[1..];
      }
    }
  }

  /** Two distinct sequences of equal length are ordered one way or the other. */
  lemma {:induction false} LexTrichotomy(s: seq<int>, t: seq<int>)
    requires |s| == |t|
    ensures s == t || LexLess(s, t) || LexLess(t, s)
  {
    if s != [] {
      LexTrichotomy(s[1..], t[1..]);
      if s[0] == t[0] && s[1..] == t[1..] {
        assert s == [s[0]] + s[1..] && t == [t[0]] + t[1..];
      }
    }
  }

  /** On bit strings of equal length, lexicographic order is numeric order. */
  lemma {:induction false} LexLessIffValueLess(s: seq<Bit>, t: seq<Bit>)
    requires |s| == |t|
    ensures LexLess(s, t) <==> Value(s) < Value(t)
  {
    if s != [] {
      var n := |s| - 1;
      LeadingBit(s);
      LeadingBit(t);
      LexLessIffValueLess(s[1..], t[1..]);
    }
  }

  /** A bit string's value splits into its leading bit's weight and the value of the rest. */
  lemma {:induction false} LeadingBit(s: seq<Bit>)
    requires s != []
    ensures Value(s) == (if s[0] == 1 then Pow2(|s| - 1) else 0) + Value(s[1..])
  {
    if |s| > 1 {
      var init := s[..|s| - 1];
      assert init[0] == s[0] && init[1..] == s[1..][..|s| - 2];
      LeadingBit(init);
    } else {
      assert s[1..] == [] && s[..0] == [];
    }
  }

  /** Equal-length bit strings with equal values are equal. */
  lemma ValueInjective(s: seq<Bit>, t: seq<Bit>)
    requires |s| == |t| && Value(s) == Value(t)
    ensures s == t
  {
    LexTrichotomy(s, t);
    LexLessIffValueLess(s, t);
    LexLessIffValueLess(t, s);
  }
}
