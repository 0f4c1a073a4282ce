/** Absent values. `Option` is JavaScript's optional property (`undefined`
    is `None`); `Nullable` is a nullable store column (`null` is `Null`). */
module Wrappers {

  datatype Option<+T> = None | Some(value: T) {

    /** The value, or `default` when absent (JavaScript's `x ?? default`). */
    function GetOr(default: T): T {
      match this
      case Some(v) => v
      case None => default
    }
  }

  /** A nullable column value as the store returns it. */
  datatype Nullable<+T> = Null | NonNull(value: T) {

    /** `x ?? undefined`: null becomes absent, anything else is kept. */
    function OrUndefined(): (r: Option<T>)
      ensures r.Some? <==> NonNull?
      ensures r.Some? ==> r.value == value
    {
      match this
      case NonNull(v) => Some(v)
      case Null => None
    }
  }
}
