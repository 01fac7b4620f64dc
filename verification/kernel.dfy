/**
 * The global `Lexicoid(object, exception: true)` that lib/core_ext/kernel.rb adds to
 * `Kernel`: `Lexicoid.from`, with its `ArgumentError` either re-raised or turned into "".
 */
module KernelExt {
  import opened Results
  import opened Normalizer
  import Core = Lexicoid

  /** How a call ends: with a returned string or with an `ArgumentError` raised. */
  datatype Outcome = Returned(id: string) | Raised(error: Rejection)

  /**
   * `Kernel#Lexicoid`: the ID when `from` succeeds; otherwise the same error raised again
   * when `exception` holds (the default), or the empty string when it does not.
   */
  function Lexicoid(x: Input, exception: bool := true): (o: Outcome)
    ensures Core.LexicoidOf(x).Success? ==> o == Returned(Core.LexicoidOf(x).value)
    ensures o.Raised? <==> exception && Core.LexicoidOf(x).Failure?
    ensures o.Raised? ==> o.error == Normalize(x).error
    ensures !exception ==> o.Returned?
  {
    match Core.LexicoidOf(x)
    case Success(id) => Returned(id)
    case Failure(e) => if exception then Raised(e) else Returned("")
  }

  /** With errors squelched, the result is empty exactly when the argument was rejected. */
  lemma EmptyIffRejected(x: Input)
    ensures Lexicoid(x, false) == Returned("") <==> Normalize(x).Failure?
  {
  }

  /** The flag matters only for rejected arguments. */
  lemma FlagIrrelevantOnSuccess(x: Input)
    requires Normalize(x).Success?
    ensures Lexicoid(x, true) == Lexicoid(x, false) == Returned(Core.LexicoidOf(x).value)
  {
  }

  /** The examples of test/core_ext/test_kernel.rb and of the delegation test. */
  lemma KernelExamples()
    ensures Lexicoid(Unsupported) == Raised(OneOf)
    ensures Lexicoid(Unsupported, exception := false) == Returned("")
    ensures Lexicoid(Integer(-1)) == Raised(NonNegative)
    ensures Lexicoid(Integer(1234)) == Returned(Core.LexicoidOf(Integer(1234)).value)
  {
  }
}
