/** Values shared by every layer: optional values, the errors the layers
    report, Go's (value, error) return pairs, 64-bit integers and timestamps. */
module Base {

  datatype Option<+T> = None | Some(value: T)

  const MinInt64: int := -0x8000_0000_0000_0000
  const MaxInt64: int := 0x7fff_ffff_ffff_ffff

  /** Go's `int64`. */
  type Int64 = x: int | MinInt64 <= x <= MaxInt64

  /** Go's `time.Time`: either the zero value or an instant read from the clock. */
  datatype Time = ZeroTime | At(instant: int)

  /** The errors that travel from the validators and the stores up to the services. */
  datatype Error =
    | Invalid(message: string)     // a validation rule failed; the message names the rule
    | NotFound                     // the engine id matched no row ("engine not found in database")
    | BadEngineId                  // `uuid.Parse` rejected the id given to an engine update
    | Database(message: string)    // any other error reported by the database

  /** A Go call's two results: a value, and `nil` (None) or an error. */
  datatype Reply<T> = Reply(value: T, err: Option<Error>)
  {
    predicate Failed() { err.Some? }
  }

  /** What the services do with a store's results: on an error the value is
      replaced by the type's zero value and the error is passed on unchanged. */
  function Scrub<T>(r: Reply<T>, zero: T): (s: Reply<T>)
    ensures s.err == r.err
    ensures s.value == if r.Failed() then zero else r.value
  {
    if r.Failed() then Reply(zero, r.err) else r
  }
}
