/** A value that a screen may fail to produce: a field that does not parse
    (the source's NaN), a missing entry, or an undefined quotient. */
module Options {

  datatype Option<+T> = None | Some(value: T) {

    /** The wrapped value, or `default` when there is none (the source's `x || 0`). */
    function GetOr(default: T): T
    {
      match this
      case Some(v) => v
      case None => default
    }
  }

  /** Both values are present. */
  predicate Both<A, B>(a: Option<A>, b: Option<B>)
  {
    a.Some? && b.Some?
  }
}
