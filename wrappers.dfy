/** Optional values and the outcome of a call that may raise. */
module Wrappers {

  /** Python's `X | None`. */
  datatype Option<+T> = None | Some(value: T)

  /** What a guarded Python call does: it returns a value, or it raises an
      exception whose text is `error`. Every filesystem step of the model
      reports through this type instead of a precondition. */
  datatype Outcome<+T> = Returned(value: T) | Raised(error: string)
}
