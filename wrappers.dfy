/** Failure-compatible optional value, used for the sentinel error
    returns (-1) of the assembler's helpers. */
module Wrappers {

  datatype Option<+T> = None | Some(value: T)

}
