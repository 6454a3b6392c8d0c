/** Small value types shared by the modules of the model. */
module Common {

  /** Go's nil-or-value, used for `error` values and a `*goquery.Document` that may be nil. */
  datatype Option<+T> = None | Some(value: T)

  /** Concatenation is associative (stated once, so that long proofs need not rediscover it). */
  lemma AppendAssoc<T>(a: seq<T>, b: seq<T>, c: seq<T>)
    ensures a + (b + c) == (a + b) + c
  {
  }
}
