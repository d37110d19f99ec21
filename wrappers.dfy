/** The optional value used wherever the Java code works with a nullable reference
    or a call that can throw instead of returning. */
module Wrappers {

  datatype Option<+T> = None | Some(value: T)

}
