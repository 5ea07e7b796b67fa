/** The optional-value wrapper shared by the decoder and the reconciliation model. */
module Wrappers {

  /** A value that may be absent: a Python `None`, a missing dict key, or a failed read. */
  datatype Option<+T> = None | Some(value: T)
}
