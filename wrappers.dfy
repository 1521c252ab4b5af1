/** The optional value used by the overflow walk and the snapping decision. */
module Wrappers {

  datatype Option<+T> = None | Some(value: T)
}
