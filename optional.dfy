/** Kotlin's nullable values and its elvis operator `?:`. */
module Optional {

  /** A nullable value: `None` stands for Kotlin's `null`. */
  datatype Option<+T> = None | Some(value: T)

  /** `o ?: default`: the value carried by `o`, or `default` when `o` is null. */
  function Elvis<T>(o: Option<T>, default: T): (r: T)
    ensures o.Some? ==> r == o.value
    ensures o.None? ==> r == default
  {
    match o
    case Some(v) => v
    case None => default
  }
}
