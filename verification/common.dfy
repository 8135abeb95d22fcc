/** Shared vocabulary of the competition server: optional values, fallible
    results, identifiers, bytes, JavaScript numbers as a validator sees them,
    and the HTTP status codes the routes answer with. */
module Common {

  datatype Option<T> = None | Some(value: T)

  datatype Result<T, E> = Ok(value: T) | Err(error: E)

  /** A document identifier (a MongoDB ObjectId, kept abstract). */
  type Id = nat

  type Byte = b: int | 0 <= b < 256

  /** A JavaScript number: a finite value or one of the special values. */
  datatype JsNumber = NaN | PositiveInfinity | NegativeInfinity | Finite(value: real)

  /** The schema checks `.int().min(lo).max(hi)` on a number: it must be
      finite, integral and within `lo..hi`. */
  predicate IsIntegerBetween(n: JsNumber, lo: int, hi: int)
  {
    n.Finite? && n.value == n.value.Floor as real && lo as real <= n.value <= hi as real
  }

  const StatusOk := 200
  const StatusCreated := 201
  const StatusBadRequest := 400
  const StatusUnauthorized := 401
  const StatusForbidden := 403
  const StatusConflict := 409
  const StatusInternalError := 500

  /** MongoDB's error code for a unique-index violation. */
  const DuplicateKeyCode := 11000

  /** The status a route's catch block gives any thrown error that is not an
      AuthError: a duplicate-key error becomes a conflict, everything else an
      internal error. `code` is the error's numeric `code` property, if any. */
  function CaughtStatus(code: Option<int>): (status: int)
    ensures status == StatusConflict <==> code == Some(DuplicateKeyCode)
    ensures status != StatusConflict ==> status == StatusInternalError
  {
    if code == Some(DuplicateKeyCode) then StatusConflict else StatusInternalError
  }
}
