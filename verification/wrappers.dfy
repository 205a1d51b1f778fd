/** The optional value used wherever the source has `null` or "nothing this frame". */
module Wrappers {

  datatype Option<+T> = None | Some(value: T)
}
