/** An optional value: `None` stands for JavaScript's `undefined` (or `null`). */
module Wrappers {

  datatype Option<T> = None | Some(value: T) {

    /** The value, or `default` when there is none (the `x ?? default` idiom). */
    function GetOr(default: T): (r: T)
      ensures Some? ==> r == value
      ensures None? ==> r == default
    {
      match this
      case Some(v) => v
      case None => default
    }
  }

  /** One field of a `Partial<T>` patch spread over a record: `Keep` when the key is absent,
      `Set(v)` when it is present (an explicit `undefined` is `Set(None)` on an optional field). */
  datatype Field<T> = Keep | Set(value: T) {

    /** The field after `{ ...prev, ...patch }`: the patch wins when it has the key. */
    function Apply(prev: T): (r: T)
      ensures Set? ==> r == value
      ensures Keep? ==> r == prev
    {
      match this
      case Set(v) => v
      case Keep => prev
    }
  }
}
