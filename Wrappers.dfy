/** The optional value used for the host's nullable references and failed lookups. */
module Wrappers {

  datatype Option<+T> = None | Some(value: T)
}
