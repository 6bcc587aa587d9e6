/** The optional value used wherever the reader holds `null` or may lack an answer. */
module Wrappers {

  /** `None` stands for JavaScript's `null`/`undefined`, `Some(v)` for a present value. */
  datatype Option<+T> = None | Some(value: T)
}
