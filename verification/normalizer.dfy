/**
 * `Lexicoid.maybe_coerce_time` (lib/lexicoid.rb): the validation of the object handed to
 * `from` and its conversion to whole seconds since the Unix epoch.
 */
module Normalizer {
  import opened Results

  /**
   * The objects `maybe_coerce_time` tells apart, in the order it tests them: Integers and
   * (finite) Floats, Times (as their exact offset in seconds from the epoch), any other
   * object that responds to `to_time` (with the object its `to_time` returns), and the rest.
   */
  datatype Input =
    | Integer(i: int)
    | Float(f: real)
    | Instant(seconds: real)
    | Convertible(time: Input)
    | Unsupported

  /** Which of the three `ArgumentError`s is raised. */
  datatype Rejection =
    | NonNegative  // a negative Integer or Float
    | After        // a Time before the epoch
    | OneOf        // neither a number, nor a Time, nor convertible to one

  /** The object the chain of `to_time` conversions ends at. */
  function Underlying(x: Input): (u: Input)
    ensures !u.Convertible?
  {
    if x.Convertible? then Underlying(x.time) else x
  }

  predicate Numeric(x: Input)
  {
    x.Integer? || x.Float?
  }

  /** The seconds since the epoch a number or a Time stands for. */
  function Seconds(x: Input): real
    requires Numeric(x) || x.Instant?
  {
    match x
    case Integer(i) => i as real
    case Float(f) => f
    case Instant(s) => s
  }

  /**
   * `maybe_coerce_time`: a number must not be negative and a Time must not lie before the
   * epoch; either is then truncated to whole seconds (`to_i`). An object with `to_time` is
   * converted and tried again; anything else is rejected.
   */
  function Normalize(x: Input): (r: Result<nat, Rejection>)
    ensures r.Success? <==> (Numeric(Underlying(x)) || Underlying(x).Instant?) && Seconds(Underlying(x)) >= 0.0
    ensures r.Success? ==> r.value as real <= Seconds(Underlying(x)) < r.value as real + 1.0
    ensures r == Failure(NonNegative) <==> Numeric(Underlying(x)) && Seconds(Underlying(x)) < 0.0
    ensures r == Failure(After) <==> Underlying(x).Instant? && Seconds(Underlying(x)) < 0.0
    ensures r == Failure(OneOf) <==> Underlying(x).Unsupported?
  {
    match x
    case Integer(i) => if i < 0 then Failure(NonNegative) else Success(i)
    case Float(f) => if f < 0.0 then Failure(NonNegative) else Success(f.Floor)
    case Instant(s) => if s < 0.0 then Failure(After) else Success(s.Floor)
    case Convertible(t) => Normalize(t)
    case Unsupported => Failure(OneOf)
  }

  /** Accepted inputs keep their order once truncated to the second. */
  lemma NormalizeMonotone(x: Input, y: Input)
    requires Normalize(x).Success? && Normalize(y).Success?
    requires Seconds(Underlying(x)) <= Seconds(Underlying(y))
    ensures Normalize(x).value <= Normalize(y).value
  {
  }
}
