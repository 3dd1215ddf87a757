/** The optional-value wrapper used for JavaScript's `undefined`/`null`. */
module Wrappers {

  /** `None` stands for an absent JavaScript value (`undefined` or `null`). */
  datatype Option<+T> = None | Some(value: T)
}
