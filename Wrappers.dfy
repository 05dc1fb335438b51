/** The optional value used for host data that may be absent: a response
    header, a global-store entry, a field of a parsed JSON body. */
module Wrappers {

  datatype Option<+T> = None | Some(value: T)

}
