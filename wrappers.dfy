/** Option, for the source's nullable values (a pending heart-rate jump, the
    start of a flat period). */
module Wrappers {

  datatype Option<+T> = None | Some(value: T)
}
