/** The optional value and the error number that several of the modelled headers return. */
module Wrappers {

  datatype Option<T> = None | Some(value: T)

  datatype Errno = Ok | ENOBUFS
}
