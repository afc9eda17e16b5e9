/** Result and option types shared by every module of the model. */
module Common {

  /** A possibly missing value: Python's None, JavaScript's null or undefined. */
  datatype Option<T> = None | Some(value: T)

  /** The outcome of an operation that can fail with an error of type E. */
  datatype Result<T, E> = Ok(value: T) | Err(error: E)

  /** An HTTPException raised by a route: its status code and its detail text. */
  datatype HttpError = HttpError(status: int, detail: string)

  const BAD_REQUEST: int := 400
  const FORBIDDEN: int := 403
  const NOT_FOUND: int := 404

  /** Milliseconds in one day; every timestamp of the model is in milliseconds. */
  const MILLIS_PER_DAY: int := 86_400_000

  /** s keeps some elements of t, in t's order. */
  ghost predicate SubsequenceOf<T>(s: seq<T>, t: seq<T>)
  {
    if s == [] then true
    else if t == [] then false
    else if s[0] == t[0] then SubsequenceOf(s[1..], t[1..])
    else SubsequenceOf(s, t[1..])
  }
}
