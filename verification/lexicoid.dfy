/**
 * `Lexicoid.from` and `Lexicoid.now` (lib/lexicoid.rb): validate the timestamp, take its
 * minimal big-endian bytes, encode them and join the characters into the ID.
 */
module Lexicoid {
  import opened Results
  import opened BigEndian
  import opened Bits
  import opened Base32
  import opened Encoder
  import opened Normalizer
  import opened Ordering

  /**
   * The ID `from` gives for `x`, or the error it raises: the lexicographic Base32 encoding
   * of the timestamp's minimal big-endian bytes.
   */
  function LexicoidOf(x: Input): (r: Result<string, Rejection>)
    ensures r.Failure? <==> Normalize(x).Failure?
    ensures r.Failure? ==> r.error == Normalize(x).error
    ensures r.Success? ==> |r.value| >= 2 && forall c :: c in r.value ==> c in Alphabet
  {
    match Normalize(x)
    case Failure(e) => Failure(e)
    case Success(n) => Success(Base32Encode(MinimalBytes(n)))
  }

  /** `from`: the three private steps in sequence, the character array joined into a string. */
  method From(x: Input) returns (r: Result<string, Rejection>)
    ensures r == LexicoidOf(x)
  {
    var number := Normalize(x);
    if number.Failure? {
      return Failure(number.error);
    }
    var bytes := BytesFromNumber(number.value);
    var buffer := Encode(bytes);
    r := Success(buffer[..]);
  }

  /** `now`: `from` applied to the current time, here the clock reading `clock` in seconds since the epoch. */
  method Now(clock: real) returns (r: Result<string, Rejection>)
    ensures clock >= 0.0 ==> r == Success(Base32Encode(MinimalBytes(clock.Floor)))
    ensures clock < 0.0 ==> r == Failure(After)
  {
    r := From(Instant(clock));
  }

  /**
   * Two timestamps whose whole seconds need the same number of bytes give IDs in the same
   * order as the timestamps.
   */
  lemma FromSortable(x: Input, y: Input)
    requires Normalize(x).Success? && Normalize(y).Success?
    requires |MinimalBytes(Normalize(x).value)| == |MinimalBytes(Normalize(y).value)|
    ensures Normalize(x).value < Normalize(y).value <==> Precedes(LexicoidOf(x).value, LexicoidOf(y).value)
  {
    SortableWithinByteLength(Normalize(x).value, Normalize(y).value);
  }

  /** Distinct whole seconds give distinct IDs. */
  lemma FromInjective(x: Input, y: Input)
    requires LexicoidOf(x).Success? && LexicoidOf(y).Success?
    requires LexicoidOf(x).value == LexicoidOf(y).value
    ensures Normalize(x).value == Normalize(y).value
  {
    var a, b := Normalize(x).value, Normalize(y).value;
    var bytesA, bytesB := MinimalBytes(a), MinimalBytes(b);
    if |bytesA| < |bytesB| {
      EncodedLengthGrows(bytesA, bytesB);
    } else if |bytesB| < |bytesA| {
      EncodedLengthGrows(bytesB, bytesA);
    }
    SortableWithinByteLength(a, b);
    SortableWithinByteLength(b, a);
    LexLessIrreflexive(Codes(LexicoidOf(x).value));
  }

  /** A Float is truncated: it gives the ID of its whole seconds. */
  lemma FloatTruncates(f: real)
    requires f >= 0.0
    ensures LexicoidOf(Float(f)) == LexicoidOf(Integer(f.Floor))
  {
  }
}
