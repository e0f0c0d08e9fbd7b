/** Small wrapper types shared by every module of the model. */
module Common {

  /** A value that may be absent: an optional TypeScript parameter or property (`undefined`). */
  datatype Option<T> = None | Some(value: T)

  /** A nullable database column: SQL NULL or a value. */
  datatype Nullable<T> = Null | NonNull(value: T)

  datatype Result<T, E> = Ok(value: T) | Err(error: E)

  /** `x ?? null`: an absent optional becomes a NULL column. */
  function OrNull<T>(o: Option<T>): (n: Nullable<T>)
    ensures n.NonNull? <==> o.Some?
    ensures n.NonNull? ==> n.value == o.value
  {
    match o
    case None => Null
    case Some(v) => NonNull(v)
  }

  /** `x ?? undefined`: a NULL column becomes an absent property. */
  function OrUndefined<T>(n: Nullable<T>): (o: Option<T>)
    ensures o.Some? <==> n.NonNull?
    ensures o.Some? ==> o.value == n.value
  {
    match n
    case Null => None
    case NonNull(v) => Some(v)
  }

  /** `a ?? b` on two optionals: the left operand unless it is absent. */
  function Coalesce<T>(a: Option<T>, b: Option<T>): (r: Option<T>)
    ensures a.Some? ==> r == a
    ensures a.None? ==> r == b
  {
    if a.Some? then a else b
  }

  /** Storing an optional as a nullable column and reading it back is lossless. */
  lemma NullRoundTrip<T>(o: Option<T>)
    ensures OrUndefined(OrNull(o)) == o
  {
  }
}
