/**
 The values a survey answer can hold once the answer file has been decoded:
 Ruby's `nil`, a string, or a number. Integers and floats are both modelled
 as exact reals.
 */
module Values {

  datatype Value = Nil | Str(s: string) | Num(n: real)

  /** The skip test `[nil, 'unsure'].include?(value)` shared by every criterion. */
  predicate Unknown(v: Value) {
    v == Nil || v == Str("unsure")
  }

  /**
   The skip list compares with `==`: other capitalisations, padded or empty
   strings, the word "nil" and the number 0 are not skipped.
   */
  lemma NearMissesAreKnown()
    ensures !Unknown(Str("Unsure")) && !Unknown(Str("UNSURE")) && !Unknown(Str(" unsure"))
    ensures !Unknown(Str("")) && !Unknown(Str("nil"))
    ensures !Unknown(Num(0.0))
  {
  }
}
