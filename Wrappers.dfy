/** The optional value used for nullable fields and for JavaScript's `in` checks. */
module Wrappers {

  /** `None` stands for JavaScript's `null` (or a missing property); `Some(v)` for a present value. */
  datatype Option<+T> = None | Some(value: T)
}
